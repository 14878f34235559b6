/** The three string operations of Go's standard library that the server's
    configuration and request checks are built on: strings.TrimSpace,
    strings.Split with a one-character separator, and strings.Join. */
module Text {

  /** unicode.IsSpace: the Latin-1 spaces '\t', '\n', '\v', '\f', '\r', ' ',
      U+0085 and U+00A0, and the other code points with the White_Space
      property. */
  predicate IsSpace(c: char)
  {
    var n := c as int;
    n == 0x20 || 0x09 <= n <= 0x0D || n == 0x85 || n == 0xA0 || n == 0x1680
    || 0x2000 <= n <= 0x200A || n == 0x2028 || n == 0x2029 || n == 0x202F
    || n == 0x205F || n == 0x3000
  }

  /** Within ASCII, the white space is exactly ' ', '\t', '\n', '\v', '\f'
      and '\r'; in particular the list separator ',' is not. */
  lemma IsSpaceAscii(c: char)
    requires c as int < 0x80
    ensures IsSpace(c) <==> c == ' ' || c == '\t' || c == '\n' || c == '\r' || c as int == 0x0B || c as int == 0x0C
  {
  }

  predicate AllSpace(s: string)
  {
    forall k :: 0 <= k < |s| ==> IsSpace(s[k])
  }

  /** A string with no leading and no trailing white space. */
  predicate IsTrimmed(s: string)
  {
    s == [] || (!IsSpace(s[0]) && !IsSpace(s[|s| - 1]))
  }

  /** The length of the leading white space of s: every character before
      it is a space, and the character at it, if any, is not. */
  function TrimStart(s: string): (i: nat)
    ensures i <= |s|
    ensures forall k :: 0 <= k < i ==> IsSpace(s[k])
    ensures i == |s| || !IsSpace(s[i])
  {
    if s != [] && IsSpace(s[0]) then 1 + TrimStart(s[1..]) else 0
  }

  /** Where the trailing white space of s starts: every character from it on
      is a space, and the one before it, if any, is not. */
  function TrimEnd(s: string): (j: nat)
    ensures j <= |s|
    ensures forall k :: j <= k < |s| ==> IsSpace(s[k])
    ensures j == 0 || !IsSpace(s[j - 1])
  {
    if s != [] && IsSpace(s[|s| - 1]) then TrimEnd(s[..|s| - 1]) else |s|
  }

  /** strings.TrimSpace. */
  function TrimSpace(s: string): (r: string)
    ensures IsTrimmed(r)
    ensures r == [] <==> AllSpace(s)
  {
    var i := TrimStart(s);
    if i == |s| then [] else s[i..TrimEnd(s)]
  }

  /** TrimSpace is fully determined by its contract: whatever way a string
      splits into white space, a trimmed core and white space, TrimSpace
      returns that core. */
  lemma TrimSpaceOfPadded(p: string, t: string, q: string)
    requires AllSpace(p) && IsTrimmed(t) && AllSpace(q)
    ensures TrimSpace(p + t + q) == t
  {
    var s := p + t + q;
    var i, j := TrimStart(s), TrimEnd(s);
    if t == [] {
      assert AllSpace(s) by {
        forall k | 0 <= k < |s| ensures IsSpace(s[k]) {
          if k < |p| { assert s[k] == p[k]; } else { assert s[k] == q[k - |p|]; }
        }
      }
    } else {
      assert s[|p|] == t[0];
      assert s[|p| + |t| - 1] == t[|t| - 1];
      assert i == |p|;
      assert j == |p| + |t|;
      assert s[i..j] == t;
    }
  }

  /** A trimmed string is its own trim, so trimming is idempotent. */
  lemma TrimSpaceFixesTrimmed(s: string)
    ensures IsTrimmed(s) <==> TrimSpace(s) == s
  {
    if IsTrimmed(s) {
      TrimSpaceOfPadded([], s, []);
      assert [] + s + [] == s;
    }
  }

  /** The index of the first sep in s, or |s| when there is none. */
  function PieceEnd(s: string, sep: char): (i: nat)
    ensures i <= |s| && sep !in s[..i]
    ensures i == |s| || s[i] == sep
  {
    if s == [] || s[0] == sep then 0 else 1 + PieceEnd(s[1..], sep)
  }

  /** strings.Split(s, string(sep)): the pieces between occurrences of sep;
      an empty string gives one empty piece. */
  function Split(s: string, sep: char): (parts: seq<string>)
    ensures |parts| >= 1
    decreases |s|
  {
    var i := PieceEnd(s, sep);
    if i == |s| then [s] else [s[..i]] + Split(s[i + 1..], sep)
  }

  /** No piece of a split holds the separator. */
  lemma {:induction false} SplitPiecesLackSeparator(s: string, sep: char)
    ensures forall k :: 0 <= k < |Split(s, sep)| ==> sep !in Split(s, sep)[k]
    decreases |s|
  {
    var i := PieceEnd(s, sep);
    if i < |s| {
      SplitPiecesLackSeparator(s[i + 1..], sep);
    }
  }

  /** strings.Join. */
  function Join(xs: seq<string>, sep: string): (r: string)
    ensures xs == [] ==> r == []
    ensures xs != [] ==> xs[0] <= r
    ensures |xs| >= 2 ==> xs[0] + sep <= r
  {
    if |xs| == 0 then []
    else if |xs| == 1 then xs[0]
    else xs[0] + sep + Join(xs[1..], sep)
  }

  /** Joining the pieces of a split with the separator gives back the input. */
  lemma {:induction false} JoinSplit(s: string, sep: char)
    ensures Join(Split(s, sep), [sep]) == s
    decreases |s|
  {
    var i := PieceEnd(s, sep);
    if i < |s| {
      var rest := Split(s[i + 1..], sep);
      JoinSplit(s[i + 1..], sep);
      assert ([s[..i]] + rest)[1..] == rest;
      assert s == s[..i] + [sep] + s[i + 1..];
    }
  }

  lemma SplitNoSeparator(a: string, sep: char)
    requires sep !in a
    ensures Split(a, sep) == [a]
  {
    assert a[..|a|] == a;
  }

  lemma SplitAtSeparator(a: string, b: string, sep: char)
    requires sep !in a
    ensures Split(a + [sep] + b, sep) == [a] + Split(b, sep)
  {
    var s := a + [sep] + b;
    var i := PieceEnd(s, sep);
    assert s[|a|] == sep;
    assert i == |a|;
    assert s[..i] == a && s[i + 1..] == b;
  }

  /** Splitting a join of separator-free pieces gives back the pieces. */
  lemma {:induction false} SplitJoin(xs: seq<string>, sep: char)
    requires |xs| >= 1
    requires forall k :: 0 <= k < |xs| ==> sep !in xs[k]
    ensures Split(Join(xs, [sep]), sep) == xs
  {
    if |xs| == 1 {
      SplitNoSeparator(xs[0], sep);
    } else {
      SplitJoin(xs[1..], sep);
      SplitAtSeparator(xs[0], Join(xs[1..], [sep]), sep);
      assert [xs[0]] + xs[1..] == xs;
    }
  }

  /** t occurs as a contiguous piece of s. */
  predicate IsInfix(t: string, s: string)
    decreases |s|
  {
    t <= s || (s != [] && IsInfix(t, s[1..]))
  }

  lemma {:induction false} InfixExtendRight(t: string, a: string, b: string)
    requires IsInfix(t, a)
    ensures IsInfix(t, a + b)
    decreases |a|
  {
    if t <= a {
      assert t <= a + b;
    } else {
      assert (a + b)[1..] == a[1..] + b;
      InfixExtendRight(t, a[1..], b);
    }
  }

  lemma {:induction false} InfixExtendLeft(t: string, a: string, b: string)
    requires IsInfix(t, b)
    ensures IsInfix(t, a + b)
    decreases |a|
  {
    if a != [] {
      assert (a + b)[1..] == a[1..] + b;
      InfixExtendLeft(t, a[1..], b);
    } else {
      assert a + b == b;
    }
  }

  /** Every piece of a join occurs in it. */
  lemma {:induction false} JoinContainsEach(xs: seq<string>, sep: string, k: nat)
    requires k < |xs|
    ensures IsInfix(xs[k], Join(xs, sep))
  {
    if |xs| == 1 {
      assert xs[k] <= Join(xs, sep);
    } else if k == 0 {
      assert xs[0] <= xs[0] + sep;
      assert IsInfix(xs[0], xs[0] + sep);
      InfixExtendRight(xs[0], xs[0] + sep, Join(xs[1..], sep));
    } else {
      JoinContainsEach(xs[1..], sep, k - 1);
      InfixExtendLeft(xs[k], xs[0] + sep, Join(xs[1..], sep));
    }
  }
}
