/** Octets, C strings and the few sequence facts the other modules share. */
module Bytes {

  newtype byte = x: int | 0 <= x < 256

  datatype Option<+T> = None | Some(value: T)

  const INT_MAX: int := 0x7FFF_FFFF
  const INT_MIN: int := -0x8000_0000

  const TAB: byte := 9
  const LF: byte := 10
  const CR: byte := 13
  const SPACE: byte := 32
  const QUOTE: byte := 34
  const PLUS: byte := 43
  const COMMA: byte := 44
  const MINUS: byte := 45
  const DOT: byte := 46
  const SLASH: byte := 47
  const DIGIT0: byte := 48
  const DIGIT9: byte := 57
  const COLON: byte := 58
  const UPPER_E: byte := 69
  const LBRACKET: byte := 91
  const BACKSLASH: byte := 92
  const RBRACKET: byte := 93
  const LOWER_E: byte := 101
  const LOWER_U: byte := 117
  const LBRACE: byte := 123
  const RBRACE: byte := 125

  /** The octets of an ASCII literal. */
  function Ascii(s: string): (r: seq<byte>)
    ensures |r| == |s|
  {
    seq(|s|, i requires 0 <= i < |s| => if s[i] < 128 as char then s[i] as byte else 0)
  }

  lemma TakeDrop<T>(s: seq<T>, n: nat)
    requires n <= |s|
    ensures s == s[..n] + s[n..] && (n == |s| ==> s[..n] == s)
  {
  }

  lemma TakeTake<T>(s: seq<T>, m: nat, n: nat)
    requires n <= m <= |s|
    ensures s[..m][..n] == s[..n]
  {
  }

  lemma Cons<T>(s: seq<T>)
    requires s != []
    ensures s == [s[0]] + s[1..]
  {
  }

  lemma Snoc<T>(s: seq<T>)
    requires s != []
    ensures s == s[..|s| - 1] + [s[|s| - 1]]
  {
  }

  lemma Associate<T>(a: seq<T>, b: seq<T>, c: seq<T>)
    ensures a + (b + c) == a + b + c
  {
  }

  lemma Nothing<T>(s: seq<T>)
    ensures [] + s == s && s + [] == s
  {
  }

  lemma Pair<T>(a: T, b: T)
    ensures [a, b] == [a] + [b] && [a, b][1..] == [b] && [a][1..] == []
  {
  }

  predicate NoNul(s: seq<byte>) {
    forall i :: 0 <= i < |s| ==> s[i] != 0
  }

  lemma AsciiHasNoNul(s: string)
    requires forall i :: 0 <= i < |s| ==> 0 as char < s[i] < 128 as char
    ensures NoNul(Ascii(s))
  {
  }

  /** What strlen and strcmp see of a buffer: everything before its first NUL. */
  function CString(s: seq<byte>): (r: seq<byte>)
    ensures NoNul(r) && r <= s
    ensures |r| < |s| ==> s[|r|] == 0
  {
    if s == [] || s[0] == 0 then [] else [s[0]] + CString(s[1..])
  }

  lemma {:induction false} CStringIsIdentity(s: seq<byte>)
    requires NoNul(s)
    ensures CString(s) == s
  {
    if s != [] {
      CStringIsIdentity(s[1..]);
    }
  }

  lemma {:induction false} CStringStopsAtNul(s: seq<byte>, rest: seq<byte>)
    requires NoNul(s)
    ensures CString(s + [0] + rest) == s
  {
    var t := s + [0] + rest;
    if s != [] {
      assert t[1..] == s[1..] + [0] + rest;
      CStringStopsAtNul(s[1..], rest);
    }
  }

  /** What stands behind a NUL does not matter to a C string. */
  lemma {:induction false} CStringEnds(s: seq<byte>, n: nat)
    requires n < |s| && s[n] == 0
    ensures CString(s) == CString(s[..n])
  {
    if n > 0 && s[0] != 0 {
      CStringEnds(s[1..], n - 1);
      assert s[1..][..n - 1] == s[..n][1..];
    }
  }

  /** `t` stands in `s` at offset `off`. */
  predicate At(s: seq<byte>, off: nat, t: seq<byte>) {
    off + |t| <= |s| && forall k {:trigger t[k]} :: 0 <= k < |t| ==> s[off + k] == t[k]
  }

  lemma AtSlice(s: seq<byte>, off: nat, t: seq<byte>)
    ensures At(s, off, t) <==> off + |t| <= |s| && s[off..off + |t|] == t
  {
    if off + |t| <= |s| {
      var w := s[off..off + |t|];
      assert forall k :: 0 <= k < |t| ==> w[k] == s[off + k];
      if w == t {
        forall k | 0 <= k < |t| ensures s[off + k] == t[k] {
          assert w[k] == t[k];
        }
      }
    }
  }

  lemma AtAppend(s: seq<byte>, off: nat, a: seq<byte>, b: seq<byte>)
    ensures At(s, off, a + b) <==> At(s, off, a) && At(s, off + |a|, b)
  {
    var t := a + b;
    if At(s, off, t) {
      forall k | 0 <= k < |a| ensures s[off + k] == a[k] {
        assert t[k] == a[k];
      }
      forall k | 0 <= k < |b| ensures s[off + |a| + k] == b[k] {
        assert t[|a| + k] == b[k];
      }
    }
  }

  lemma AtByte(s: seq<byte>, off: nat, t: seq<byte>, k: nat)
    requires At(s, off, t) && k < |t|
    ensures off + k < |s| && s[off + k] == t[k]
  {
  }

  /** A text between two delimiters. */
  lemma AtBetween(s: seq<byte>, off: nat, left: byte, t: seq<byte>, right: byte)
    requires At(s, off, [left] + t + [right])
    ensures off + |t| + 1 < |s| && s[off] == left && At(s, off + 1, t) && s[off + 1 + |t|] == right
  {
    var u := [left] + t + [right];
    assert u[0] == left && u[|t| + 1] == right;
    forall k | 0 <= k < |t| ensures s[off + 1 + k] == t[k] {
      assert u[k + 1] == t[k];
    }
  }

  /** Two texts with one byte between them. */
  lemma AtJoined(s: seq<byte>, off: nat, a: seq<byte>, b: byte, rest: seq<byte>)
    requires At(s, off, a + ([b] + rest))
    ensures At(s, off, a) && off + |a| < |s| && s[off + |a|] == b && At(s, off + |a| + 1, rest)
  {
    AtAppend(s, off, a, [b] + rest);
    AtAppend(s, off + |a|, [b], rest);
    AtByte(s, off + |a|, [b], 0);
  }
}
