/** An optional value, used for the outcomes of the oracles
    (duration parsing, JSON decoding) and for the request that the handler
    forwards downstream, if any. */
module Wrappers {

  datatype Option<+T> = None | Some(value: T)
}
