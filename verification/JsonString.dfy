/** String literals: escaping as print_string_ptr does it and unescaping as parse_string does it. */
module JsonString {
  import opened Bytes
  import opened Unicode

  // -------- writing

  /** The letter of a two-byte escape, or 0. */
  function ShortEscape(b: byte): byte {
    if b == QUOTE || b == BACKSLASH then b
    else if b == 8 then 98
    else if b == 12 then 102
    else if b == LF then 110
    else if b == CR then 114
    else if b == TAB then 116
    else 0
  }

  function HexDigit(v: nat): (b: byte)
    requires v < 16
    ensures IsHex(b) && HexValue(b) == v
  {
    if v < 10 then (48 + v) as byte else (87 + v) as byte
  }

  function EscapeByte(b: byte): (t: seq<byte>)
    ensures forall i :: 0 <= i < |t| ==> t[i] >= 32
  {
    if ShortEscape(b) != 0 then [BACKSLASH, ShortEscape(b)]
    else if b < 32 then [BACKSLASH, LOWER_U, DIGIT0, DIGIT0, HexDigit(b as nat / 16), HexDigit(b as nat % 16)]
    else [b]
  }

  function Escaped(s: seq<byte>): (t: seq<byte>)
    ensures forall i :: 0 <= i < |t| ==> t[i] >= 32
  {
    if s == [] then [] else EscapeByte(s[0]) + Escaped(s[1..])
  }

  function Quoted(s: seq<byte>): (t: seq<byte>)
    ensures |t| >= 2 && t[0] == QUOTE && t[|t| - 1] == QUOTE
    ensures forall i :: 0 <= i < |t| ==> t[i] >= 32
  {
    [QUOTE] + Escaped(s) + [QUOTE]
  }

  lemma {:induction false} EscapedSnoc(s: seq<byte>, b: byte)
    ensures Escaped(s + [b]) == Escaped(s) + EscapeByte(b)
  {
    if s == [] {
      assert [b][1..] == [];
    } else {
      EscapedSnoc(s[1..], b);
      assert (s + [b])[1..] == s[1..] + [b];
    }
  }

  lemma {:induction false} EscapedAppend(s: seq<byte>, t: seq<byte>)
    ensures Escaped(s + t) == Escaped(s) + Escaped(t)
  {
    if s == [] {
      assert s + t == t;
    } else {
      EscapedAppend(s[1..], t);
      assert (s + t)[0] == s[0] && (s + t)[1..] == s[1..] + t;
      Associate(EscapeByte(s[0]), Escaped(s[1..]), Escaped(t));
    }
  }

  /** One more byte: its text follows that of the bytes before, within the whole. */
  lemma EscapedStep(s: seq<byte>, i: nat)
    requires i < |s|
    ensures Escaped(s[..i + 1]) == Escaped(s[..i]) + EscapeByte(s[i])
    ensures |Escaped(s[..i])| + |EscapeByte(s[i])| <= |Escaped(s)|
  {
    assert s[..i + 1] == s[..i] + [s[i]];
    EscapedSnoc(s[..i], s[i]);
    assert s == s[..i + 1] + s[i + 1..];
    EscapedAppend(s[..i + 1], s[i + 1..]);
  }

  /** The counting pass: additional bytes one byte needs. */
  function ExtraBytes(b: byte): nat {
    if ShortEscape(b) != 0 then 1 else if b < 32 then 5 else 0
  }

  function ExtraTotal(s: seq<byte>): nat {
    if s == [] then 0 else ExtraTotal(s[..|s| - 1]) + ExtraBytes(s[|s| - 1])
  }

  /** The counting pass agrees with the writing pass on every string. */
  lemma {:induction false} CountMatchesEscaped(s: seq<byte>)
    ensures |s| + ExtraTotal(s) == |Escaped(s)|
    ensures ExtraTotal(s) == 0 ==> Escaped(s) == s
  {
    if s != [] {
      Snoc(s);
      CountMatchesEscaped(s[..|s| - 1]);
      EscapedSnoc(s[..|s| - 1], s[|s| - 1]);
    }
  }

  // -------- reading

  /** The first pass of parse_string: the offset of the closing quote. */
  function ScanEnd(s: seq<byte>, p: nat): (r: Option<nat>)
    requires p <= |s|
    ensures r.Some? ==> p <= r.value < |s| && s[r.value] == QUOTE
    decreases |s| - p
  {
    if p == |s| then None
    else if s[p] == QUOTE then Some(p)
    else if s[p] != BACKSLASH then ScanEnd(s, p + 1)
    else if p + 1 == |s| then None
    else ScanEnd(s, p + 2)
  }

  /** What a one-letter escape stands for; None for any other letter. */
  function ShortMeaning(c: byte): Option<byte> {
    if c == QUOTE || c == BACKSLASH || c == SLASH then Some(c)
    else if c == 98 then Some(8)
    else if c == 102 then Some(12)
    else if c == 110 then Some(LF)
    else if c == 114 then Some(CR)
    else if c == 116 then Some(TAB)
    else None
  }

  /** One step of the second pass at `p`: bytes read and bytes written. */
  function UnescapeStep(s: seq<byte>, p: nat, end: nat): (r: Option<(nat, seq<byte>)>)
    requires p < end < |s|
    ensures r.Some? ==> r.value.0 > 0 && p + r.value.0 <= end + 1 && |r.value.1| <= 4
  {
    if s[p] != BACKSLASH then Some((1, [s[p]]))
    else if s[p + 1] == LOWER_U then Utf16Literal(s, p, end)
    else if ShortMeaning(s[p + 1]).Some? then Some((2, [ShortMeaning(s[p + 1]).value]))
    else None
  }

  function Prepend(a: seq<byte>, r: Option<seq<byte>>): Option<seq<byte>> {
    if r.Some? then Some(a + r.value) else None
  }

  lemma PrependNothing(r: Option<seq<byte>>)
    ensures Prepend([], r) == r
  {
    if r.Some? {
      assert [] + r.value == r.value;
    }
  }

  lemma PrependTwice(a: seq<byte>, b: seq<byte>, r: Option<seq<byte>>)
    ensures Prepend(a, Prepend(b, r)) == Prepend(a + b, r)
  {
    if r.Some? {
      assert a + (b + r.value) == (a + b) + r.value;
    }
  }

  /** The second pass from `p`; a last backslash can carry it one past `end`. */
  function Unescape(s: seq<byte>, p: nat, end: nat): Option<seq<byte>>
    requires p <= end + 1 <= |s|
    decreases end + 1 - p
  {
    if p >= end then Some([])
    else
      var step := UnescapeStep(s, p, end);
      if step.None? then None
      else Prepend(step.value.1, Unescape(s, p + step.value.0, end))
  }

  /** parse_string: the value as a C string, and the offset after the closing quote. */
  function ParseString(s: seq<byte>, off: nat): (r: Option<(seq<byte>, nat)>)
    requires off < |s|
    ensures r.Some? ==> off < r.value.1 <= |s| && NoNul(r.value.0)
  {
    if s[off] != QUOTE then None
    else
      var end := ScanEnd(s, off + 1);
      if end.None? then None
      else
        var u := Unescape(s, off + 1, end.value);
        if u.None? then None else Some((CString(u.value), end.value + 1))
  }

  // -------- the first pass leaves enough room for the second

  /** Units the first pass counts from `p` on: a plain byte or a backslash with the byte after it. */
  function Units(s: seq<byte>, p: nat, end: nat): nat
    requires p <= end <= |s|
    decreases end - p
  {
    if p == end then 0
    else if s[p] == BACKSLASH && p + 1 < end then 1 + Units(s, p + 2, end)
    else 1 + Units(s, p + 1, end)
  }

  /** The second pass stands at `p`, the first pass has a boundary at `q`; `written` bytes leave
      room for all that is still to come out of an estimate of `total`. */
  predicate HasRoom(s: seq<byte>, p: nat, q: nat, end: nat, written: nat, total: nat) {
    if p <= end then
      p <= q <= p + 1 && q <= end < |s| && ScanEnd(s, q) == Some(end) && written + Units(s, q, end) + (q - p) <= total
    else
      p == end + 1 && written <= total
  }

  /** Walking the first pass from boundary `b` to the first boundary at or after `target`. */
  lemma {:induction false} WalkUnits(s: seq<byte>, b: nat, target: nat, end: nat) returns (q: nat)
    requires b <= target <= end < |s| && ScanEnd(s, b) == Some(end)
    ensures target <= q <= target + 1 && q <= end && ScanEnd(s, q) == Some(end)
    ensures 2 * Units(s, b, end) >= 2 * Units(s, q, end) + (target - b)
    ensures (forall i :: b <= i < target ==> s[i] != BACKSLASH)
      ==> q == target && Units(s, b, end) == Units(s, target, end) + (target - b)
    decreases target - b
  {
    if b == target {
      q := b;
    } else if s[b] == BACKSLASH {
      if b + 2 <= target {
        q := WalkUnits(s, b + 2, target, end);
      } else {
        q := b + 2;
      }
    } else {
      q := WalkUnits(s, b + 1, target, end);
    }
  }

  lemma HexIsPlain(s: seq<byte>, p: nat)
    requires IsHex4(s, p)
    ensures forall i :: p <= i < p + 4 ==> s[i] != BACKSLASH
  {
  }

  /** One step of the second pass, aligned with the first pass or not, keeps within the estimate. */
  lemma StepKeepsRoom(s: seq<byte>, p: nat, q: nat, end: nat, written: nat, total: nat) returns (q': nat)
    requires p < end && HasRoom(s, p, q, end, written, total)
    requires UnescapeStep(s, p, end).Some?
    ensures var step := UnescapeStep(s, p, end).value;
            HasRoom(s, p + step.0, q', end, written + |step.1|, total)
  {
    var step := UnescapeStep(s, p, end).value;
    if s[p] != BACKSLASH {
      q' := p + 1;
    } else if s[p + 1] != LOWER_U {
      if q == p {
        q' := p + 2;
      } else if p + 1 == end {
        q' := end;
      } else if s[p + 1] == BACKSLASH {
        q' := p + 3;
      } else {
        q' := p + 2;
      }
    } else {
      assert ScanEnd(s, p + 2) == Some(end) && Units(s, q, end) == 1 + Units(s, p + 2, end);
      var mid := WalkUnits(s, p + 2, p + 6, end);
      if step.0 == 6 {
        q' := mid;
        if IsHex4(s, p + 2) {
          HexIsPlain(s, p + 2);
        }
      } else {
        HexIsPlain(s, p + 2);
        HexIsPlain(s, p + 8);
        assert mid == p + 6 && ScanEnd(s, p + 8) == Some(end) && Units(s, p + 6, end) == 1 + Units(s, p + 8, end);
        q' := WalkUnits(s, p + 8, p + 12, end);
      }
    }
  }

  /** Every successful unescaping fits the estimate of the first pass. */
  lemma {:induction false} UnescapeFits(s: seq<byte>, p: nat, q: nat, end: nat, written: nat, total: nat)
    requires p <= end + 1 <= |s| && HasRoom(s, p, q, end, written, total)
    ensures var u := Unescape(s, p, end); u.Some? ==> written + |u.value| <= total
    decreases end + 1 - p
  {
    if p < end && UnescapeStep(s, p, end).Some? {
      var step := UnescapeStep(s, p, end).value;
      var q' := StepKeepsRoom(s, p, q, end, written, total);
      UnescapeFits(s, p + step.0, q', end, written + |step.1|, total);
    }
  }
}
