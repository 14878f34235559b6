/** The JSON text of the successful /chat reply: json.Marshal of a chatReply
    value, whose only field is the string "reply". Strings are written as
    encoding/json writes them, with HTML escaping on (the default of
    json.Marshal). */
module Json {
  import opened Wrappers

  const HexDigits: string := "0123456789abcdef"

  /** Text holding no raw control character, no '<', '>' or '&' and
      neither U+2028 nor U+2029: safe to embed in HTML and JavaScript. */
  predicate SafeText(s: string)
  {
    forall i :: 0 <= i < |s| ==>
      s[i] as int >= 0x20 && s[i] != '<' && s[i] != '>' && s[i] != '&'
      && s[i] as int != 0x2028 && s[i] as int != 0x2029
  }

  /** How encoding/json writes one character inside a string literal. */
  function EscapeChar(c: char): (r: string)
    ensures r == [c] || (|r| >= 2 && r[0] == '\\')
  {
    var n := c as int;
    if c == '"' || c == '\\' then ['\\', c]
    else if n == 0x08 then "\\b"
    else if n == 0x0C then "\\f"
    else if c == '\n' then "\\n"
    else if c == '\r' then "\\r"
    else if c == '\t' then "\\t"
    else if n < 0x20 || c == '<' || c == '>' || c == '&' then
      "\\u00" + [HexDigits[n / 16], HexDigits[n % 16]]
    else if n == 0x2028 || n == 0x2029 then "\\u202" + [HexDigits[n % 16]]
    else [c]
  }

  function Escape(s: string): (r: string)
    ensures |r| >= |s|
  {
    if s == [] then [] else EscapeChar(s[0]) + Escape(s[1..])
  }

  /** A JSON string literal holding s. */
  function Quote(s: string): string
  {
    "\"" + Escape(s) + "\""
  }

  /** json.Marshal(chatReply{Reply: content}). */
  function MarshalReply(content: string): (data: string)
    ensures |data| >= 12 && data[..10] == "{\"reply\":\"" && data[|data| - 2..] == "\"}"
  {
    "{\"reply\":" + Quote(content) + "}"
  }

  lemma EscapeCharSafe(c: char)
    ensures SafeText(EscapeChar(c))
  {
  }

  /** The writer never emits a raw control character, '<', '>', '&', U+2028
      or U+2029. */
  lemma {:induction false} EscapeSafe(s: string)
    ensures SafeText(Escape(s))
  {
    if s != [] {
      EscapeCharSafe(s[0]);
      EscapeSafe(s[1..]);
      var a, b := EscapeChar(s[0]), Escape(s[1..]);
      forall i | 0 <= i < |a + b|
        ensures (a + b)[i] == (if i < |a| then a[i] else b[i - |a|])
      {
      }
    }
  }

  /** The reply object, as written, is safe text. */
  lemma MarshalReplySafe(content: string)
    ensures SafeText(MarshalReply(content))
  {
    EscapeSafe(content);
    var e := Escape(content);
    var data := MarshalReply(content);
    assert data == "{\"reply\":\"" + e + "\"}";
    forall i | 0 <= i < |data|
      ensures data[i] as int >= 0x20 && data[i] != '<' && data[i] != '>' && data[i] != '&'
        && data[i] as int != 0x2028 && data[i] as int != 0x2029
    {
      if 10 <= i < 10 + |e| {
        assert data[i] == e[i - 10];
      }
    }
  }

  // ---------------------------------------------------------------------
  // A reader for JSON string literals (RFC 8259, section 7), used to state
  // what the encoding means.

  function HexValue(c: char): Option<int>
  {
    if '0' <= c <= '9' then Some(c as int - '0' as int)
    else if 'a' <= c <= 'f' then Some(c as int - 'a' as int + 10)
    else if 'A' <= c <= 'F' then Some(c as int - 'A' as int + 10)
    else None
  }

  /** The value of four hexadecimal digits. */
  function Hex4(s: string): Option<int>
    requires |s| == 4
  {
    match (HexValue(s[0]), HexValue(s[1]), HexValue(s[2]), HexValue(s[3]))
    case (Some(a), Some(b), Some(c), Some(d)) => Some(a * 4096 + b * 256 + c * 16 + d)
    case _ => None
  }

  /** The character a two-character escape sequence \e stands for. */
  function ShortEscape(e: char): Option<char>
  {
    if e == '"' || e == '\\' || e == '/' then Some(e)
    else if e == 'b' then Some(0x08 as char)
    else if e == 'f' then Some(0x0C as char)
    else if e == 'n' then Some('\n')
    else if e == 'r' then Some('\r')
    else if e == 't' then Some('\t')
    else None
  }

  function Prepend(c: char, r: Option<string>): Option<string>
  {
    match r
    case Some(t) => Some([c] + t)
    case None => None
  }

  /** The character that the escape sequence at the start of s stands for,
      with the length of the sequence, or None if it is not a valid one. */
  function EscapeSequence(s: string): (r: Option<(char, nat)>)
    requires s != [] && s[0] == '\\'
    ensures r.Some? ==> 2 <= r.value.1 <= |s|
  {
    if |s| < 2 then None
    else
      match ShortEscape(s[1])
      case Some(c) => Some((c, 2))
      case None =>
        if s[1] == 'u' && |s| >= 6 then
          match Hex4(s[2..6])
          case Some(v) => if v < 0xD800 || 0xE000 <= v then Some((v as char, 6)) else None
          case None => None
        else None
  }

  /** The characters that the body of a string literal stands for, or None
      if it is not a valid body. */
  function Unescape(s: string): Option<string>
    decreases |s|
  {
    if s == [] then Some([])
    else if s[0] == '\\' then
      match EscapeSequence(s)
      case Some((c, len)) => Prepend(c, Unescape(s[len..]))
      case None => None
    else if s[0] == '"' || (s[0] as int) < 0x20 then None
    else Prepend(s[0], Unescape(s[1..]))
  }

  /** The string a JSON string literal stands for. */
  function Unquote(lit: string): Option<string>
  {
    if |lit| >= 2 && lit[0] == '"' && lit[|lit| - 1] == '"' then Unescape(lit[1..|lit| - 1])
    else None
  }

  /** The reply string of a JSON object {"reply":...} written without
      white space, as MarshalReply writes it. */
  function ParseReply(data: string): Option<string>
  {
    var prefix := "{\"reply\":";
    if |data| > |prefix| && data[..|prefix|] == prefix && data[|data| - 1] == '}' then
      Unquote(data[|prefix|..|data| - 1])
    else None
  }

  // ---------------------------------------------------------------------
  // The encoding is read back as what was encoded.

  lemma HexDigitValue(k: int)
    requires 0 <= k < 16
    ensures HexValue(HexDigits[k]) == Some(k)
  {
  }

  lemma UnescapeShort(c: char, e: char, t: string)
    requires ShortEscape(e) == Some(c)
    ensures Unescape(['\\', e] + t) == Prepend(c, Unescape(t))
  {
    var s := ['\\', e] + t;
    assert EscapeSequence(s) == Some((c, 2));
    assert s[2..] == t;
  }

  lemma UnescapeUnicode(s: string, v: int)
    requires |s| >= 6 && s[0] == '\\' && s[1] == 'u'
    requires Hex4(s[2..6]) == Some(v) && (v < 0xD800 || 0xE000 <= v)
    ensures Unescape(s) == Prepend(v as char, Unescape(s[6..]))
  {
    assert ShortEscape('u') == None;
    assert EscapeSequence(s) == Some((v as char, 6));
  }

  lemma UnescapePlain(c: char, t: string)
    requires c != '\\' && c != '"' && c as int >= 0x20
    ensures Unescape([c] + t) == Prepend(c, Unescape(t))
  {
    assert ([c] + t)[1..] == t;
  }

  lemma UnescapeChar(c: char, t: string)
    ensures Unescape(EscapeChar(c) + t) == Prepend(c, Unescape(t))
  {
    var n := c as int;
    if c == '"' || c == '\\' {
      UnescapeShort(c, c, t);
    } else if n == 0x08 {
      UnescapeShort(c, 'b', t);
    } else if n == 0x0C {
      UnescapeShort(c, 'f', t);
    } else if c == '\n' {
      UnescapeShort(c, 'n', t);
    } else if c == '\r' {
      UnescapeShort(c, 'r', t);
    } else if c == '\t' {
      UnescapeShort(c, 't', t);
    } else if n < 0x20 || c == '<' || c == '>' || c == '&' {
      HexDigitValue(n / 16);
      HexDigitValue(n % 16);
      var s := EscapeChar(c) + t;
      assert s[2..6] == ['0', '0', HexDigits[n / 16], HexDigits[n % 16]];
      assert s[6..] == t;
      UnescapeUnicode(s, n);
    } else if n == 0x2028 || n == 0x2029 {
      HexDigitValue(n % 16);
      var s := EscapeChar(c) + t;
      assert s[2..6] == ['2', '0', '2', HexDigits[n % 16]];
      assert s[6..] == t;
      UnescapeUnicode(s, n);
    } else {
      UnescapePlain(c, t);
    }
  }

  lemma {:induction false} UnescapeEscape(s: string)
    ensures Unescape(Escape(s)) == Some(s)
  {
    if s != [] {
      UnescapeChar(s[0], Escape(s[1..]));
      UnescapeEscape(s[1..]);
      assert [s[0]] + s[1..] == s;
    }
  }

  /** A character encoding/json writes as itself. */
  predicate Plain(c: char)
  {
    c != '"' && c != '\\' && c as int >= 0x20 && c != '<' && c != '>' && c != '&'
    && c as int != 0x2028 && c as int != 0x2029
  }

  /** Text made of plain characters is written unchanged. */
  lemma {:induction false} EscapeKeepsPlain(s: string)
    requires forall i :: 0 <= i < |s| ==> Plain(s[i])
    ensures Escape(s) == s
  {
    if s != [] {
      assert EscapeChar(s[0]) == [s[0]];
      EscapeKeepsPlain(s[1..]);
      assert [s[0]] + s[1..] == s;
    }
  }

  /** A reply of plain text is that text between {"reply":" and "}. */
  lemma MarshalPlainReply(content: string)
    requires forall i :: 0 <= i < |content| ==> Plain(content[i])
    ensures MarshalReply(content) + "\n" == "{\"reply\":\"" + content + "\"}\n"
  {
    EscapeKeepsPlain(content);
  }

  /** Reading back a quoted string gives the string. */
  lemma UnquoteQuote(s: string)
    ensures Unquote(Quote(s)) == Some(s)
  {
    var lit := Quote(s);
    assert lit[1..|lit| - 1] == Escape(s);
    UnescapeEscape(s);
  }

  /** The reply object holds exactly the content it was built from. */
  lemma ParseMarshalReply(content: string)
    ensures ParseReply(MarshalReply(content)) == Some(content)
  {
    var data := MarshalReply(content);
    var prefix := "{\"reply\":";
    assert data[..|prefix|] == prefix;
    assert data[|prefix|..|data| - 1] == Quote(content);
    UnquoteQuote(content);
  }
}
