/** Hexadecimal escapes, UTF-16 pairs (section 2.2 of RFC 2781) and UTF-8 (section 3 of RFC 3629). */
module Unicode {
  import opened Bytes

  predicate IsHex(b: byte) {
    48 <= b <= 57 || 65 <= b <= 70 || 97 <= b <= 102
  }

  function HexValue(b: byte): (v: nat)
    requires IsHex(b)
    ensures v < 16
  {
    if b <= 57 then b as nat - 48
    else if b <= 70 then b as nat - 55
    else b as nat - 87
  }

  predicate IsHex4(s: seq<byte>, p: nat) {
    p + 4 <= |s| && IsHex(s[p]) && IsHex(s[p + 1]) && IsHex(s[p + 2]) && IsHex(s[p + 3])
  }

  /** parse_hex4: any byte that is not a hexadecimal digit makes the whole code 0. */
  function Hex4(s: seq<byte>, p: nat): (v: nat)
    requires p + 4 <= |s|
    ensures v < 0x10000
    ensures !IsHex4(s, p) ==> v == 0
  {
    if IsHex4(s, p) then
      ((HexValue(s[p]) * 16 + HexValue(s[p + 1])) * 16 + HexValue(s[p + 2])) * 16 + HexValue(s[p + 3])
    else 0
  }

  predicate IsHighSurrogate(c: nat) { 0xD800 <= c <= 0xDBFF }
  predicate IsLowSurrogate(c: nat) { 0xDC00 <= c <= 0xDFFF }

  /** A Unicode scalar value. */
  predicate IsScalar(c: nat) {
    c <= 0x10FFFF && !IsHighSurrogate(c) && !IsLowSurrogate(c)
  }

  function PairValue(high: nat, low: nat): (c: nat)
    requires IsHighSurrogate(high) && IsLowSurrogate(low)
    ensures 0x10000 <= c <= 0x10FFFF
  {
    0x10000 + (high - 0xD800) * 0x400 + (low - 0xDC00)
  }

  /** The UTF-8 form of a code point, row by row of the table in section 3 of RFC 3629. */
  function Utf8(c: nat): (u: seq<byte>)
    requires c <= 0x10FFFF
    ensures 1 <= |u| <= 4
    ensures c < 0x10000 ==> |u| <= 3
  {
    if c < 0x80 then [c as byte]
    else if c < 0x800 then [(0xC0 + c / 0x40) as byte, Continuation(c)]
    else if c < 0x10000 then [(0xE0 + c / 0x1000) as byte, Continuation(c / 0x40), Continuation(c)]
    else [(0xF0 + c / 0x40000) as byte, Continuation(c / 0x1000), Continuation(c / 0x40), Continuation(c)]
  }

  function Continuation(c: nat): byte {
    (0x80 + c % 0x40) as byte
  }

  predicate IsContinuation(b: byte) {
    0x80 <= b < 0xC0
  }

  /** A strict decoder of one code point: no overlong form, no surrogate, nothing above 10FFFF. */
  function DecodeUtf8(u: seq<byte>): Option<nat> {
    if |u| == 1 && u[0] < 0x80 then Some(u[0] as nat)
    else if |u| == 2 && 0xC0 <= u[0] < 0xE0 && IsContinuation(u[1]) then
      InRange((u[0] as nat - 0xC0) * 0x40 + (u[1] as nat - 0x80), 0x80)
    else if |u| == 3 && 0xE0 <= u[0] < 0xF0 && IsContinuation(u[1]) && IsContinuation(u[2]) then
      InRange((u[0] as nat - 0xE0) * 0x1000 + (u[1] as nat - 0x80) * 0x40 + (u[2] as nat - 0x80), 0x800)
    else if |u| == 4 && 0xF0 <= u[0] < 0xF8 && IsContinuation(u[1]) && IsContinuation(u[2]) && IsContinuation(u[3]) then
      InRange((u[0] as nat - 0xF0) * 0x40000 + (u[1] as nat - 0x80) * 0x1000 + (u[2] as nat - 0x80) * 0x40
              + (u[3] as nat - 0x80), 0x10000)
    else None
  }

  function InRange(c: nat, least: nat): Option<nat> {
    if least <= c && IsScalar(c) then Some(c) else None
  }

  /** The encoder is exactly the inverse of the strict decoder, on scalar values and on nothing else. */
  lemma Utf8RoundTrip(c: nat)
    requires c <= 0x10FFFF
    ensures DecodeUtf8(Utf8(c)) == (if IsScalar(c) then Some(c) else None)
  {
    hide DecodeUtf8, Utf8;
    if c < 0x800 {
      TwoBytesBack(c);
    } else if c < 0x10000 {
      ThreeBytesBack(c);
    } else {
      FourBytesBack(c);
    }
  }

  /** A code point and its groups of six bits. */
  lemma Sextets(c: nat)
    ensures c == c / 0x40 * 0x40 + c % 0x40
    ensures c == c / 0x1000 * 0x1000 + c / 0x40 % 0x40 * 0x40 + c % 0x40
    ensures c == c / 0x40000 * 0x40000 + c / 0x1000 % 0x40 * 0x1000 + c / 0x40 % 0x40 * 0x40 + c % 0x40
  {
    var q := c / 0x40;
    assert c / 0x1000 == q / 0x40 && q == (q / 0x40) * 0x40 + q % 0x40;
    var r := q / 0x40;
    assert c / 0x40000 == r / 0x40 && r == (r / 0x40) * 0x40 + r % 0x40;
  }

  lemma TwoBytesBack(c: nat)
    requires c < 0x800
    ensures DecodeUtf8(Utf8(c)) == Some(c)
  {
    Sextets(c);
  }

  lemma ThreeBytesBack(c: nat)
    requires 0x800 <= c < 0x10000
    ensures DecodeUtf8(Utf8(c)) == (if IsScalar(c) then Some(c) else None)
  {
    Sextets(c);
  }

  lemma FourBytesBack(c: nat)
    requires 0x10000 <= c <= 0x10FFFF
    ensures DecodeUtf8(Utf8(c)) == Some(c)
  {
    Sextets(c);
  }

  /** utf16_literal_to_utf8 on the escape at `p`: how many bytes it reads and what it writes. */
  function Utf16Literal(s: seq<byte>, p: nat, end: nat): (r: Option<(nat, seq<byte>)>)
    requires p <= end <= |s|
    ensures r.Some? ==> (r.value.0 == 6 || r.value.0 == 12) && p + r.value.0 <= end
    ensures r.Some? ==> |r.value.1| <= 4 && (r.value.0 == 6 ==> |r.value.1| <= 3)
  {
    if end - p < 6 then None
    else
      var first := Hex4(s, p + 2);
      if IsLowSurrogate(first) then None
      else if IsHighSurrogate(first) then
        if end - (p + 6) < 6 || s[p + 6] != BACKSLASH || s[p + 7] != LOWER_U then None
        else
          var second := Hex4(s, p + 8);
          if IsLowSurrogate(second) then Some((12, Utf8(PairValue(first, second)))) else None
      else Some((6, Utf8(first)))
  }

  /** Whatever the escapes say, what is written is the UTF-8 form of one scalar value: never an
      encoded surrogate. */
  lemma LiteralIsScalarUtf8(s: seq<byte>, p: nat, end: nat)
    requires p <= end <= |s| && Utf16Literal(s, p, end).Some?
    ensures var r := Utf16Literal(s, p, end).value;
            DecodeUtf8(r.1).Some? &&
            DecodeUtf8(r.1).value == (if r.0 == 6 then Hex4(s, p + 2) else PairValue(Hex4(s, p + 2), Hex4(s, p + 8)))
  {
    var first := Hex4(s, p + 2);
    if IsHighSurrogate(first) {
      Utf8RoundTrip(PairValue(first, Hex4(s, p + 8)));
    } else {
      Utf8RoundTrip(first);
    }
  }
}
