/** Numbers: the text `sprintf("%d")` writes and the value `strtod` reads back.
    A double is an exact real here; rounding is not modelled. */
module JsonNumber {
  import opened Bytes

  /** parse_number copies at most this many bytes before it calls strtod. */
  const NUMBER_TEXT_MAX: nat := 63

  predicate IsDigit(b: byte) {
    DIGIT0 <= b <= DIGIT9
  }

  predicate IsNumberByte(b: byte) {
    IsDigit(b) || b == PLUS || b == MINUS || b == LOWER_E || b == UPPER_E || b == DOT
  }

  predicate AllDigits(s: seq<byte>) {
    forall i :: 0 <= i < |s| ==> IsDigit(s[i])
  }

  function Signed(negative: bool, n: int): int {
    if negative then -n else n
  }

  function DigitsValue(ds: seq<byte>): int {
    if ds == [] then 0
    else 10 * DigitsValue(ds[..|ds| - 1]) + (ds[|ds| - 1] as int - DIGIT0 as int)
  }

  // -------- writing

  function Digits(n: nat): (ds: seq<byte>)
    ensures ds != [] && AllDigits(ds)
    ensures n > 0 ==> ds[0] != DIGIT0
  {
    if n < 10 then [(n + 48) as byte]
    else Digits(n / 10) + [(n % 10 + 48) as byte]
  }

  /** The `%d` rendering. */
  function Decimal(n: int): (t: seq<byte>)
    ensures t != [] && (IsDigit(t[0]) || t[0] == MINUS)
    ensures forall i :: 0 <= i < |t| ==> IsNumberByte(t[i])
  {
    if n < 0 then [MINUS] + Digits(-n) else Digits(n)
  }

  lemma {:induction false} DigitsValueOfDigits(n: nat)
    ensures DigitsValue(Digits(n)) == n
  {
    if n >= 10 {
      DigitsValueOfDigits(n / 10);
      var ds := Digits(n);
      assert ds[..|ds| - 1] == Digits(n / 10);
    } else {
      assert Digits(n)[..0] == [];
    }
  }

  function Power10(k: nat): nat {
    if k == 0 then 1 else 10 * Power10(k - 1)
  }

  lemma TenToTheTenth()
    ensures Power10(10) == 10_000_000_000
  {
    assert Power10(3) == 1000;
    assert Power10(6) == 1_000_000;
    assert Power10(9) == 1_000_000_000;
  }

  lemma {:induction false} DigitsAreShort(n: nat, k: nat)
    requires k > 0 && n < Power10(k)
    ensures |Digits(n)| <= k
  {
    if n >= 10 {
      DigitsAreShort(n / 10, k - 1);
    }
  }

  lemma DecimalIsShort(n: int)
    requires INT_MIN <= n <= INT_MAX
    ensures |Decimal(n)| <= 11
  {
    TenToTheTenth();
    DigitsAreShort(if n < 0 then -n else n, 10);
  }

  lemma {:induction false} LeadingDigitBound(ds: seq<byte>)
    requires ds != [] && AllDigits(ds) && ds[0] != DIGIT0
    ensures DigitsValue(ds) >= Power10(|ds| - 1)
  {
    if |ds| > 1 {
      LeadingDigitBound(ds[..|ds| - 1]);
    } else {
      assert ds[..0] == [];
    }
  }

  lemma {:induction false} Power10Monotone(a: nat, b: nat)
    requires a <= b
    ensures Power10(a) <= Power10(b)
  {
    if a < b {
      Power10Monotone(a, b - 1);
    }
  }

  /** A 32-bit integer literal without superfluous zeros fits the number buffer. */
  lemma IntegerLiteralIsShort(ds: seq<byte>)
    requires ds != [] && AllDigits(ds) && (|ds| > 1 ==> ds[0] != DIGIT0)
    requires DigitsValue(ds) <= -INT_MIN
    ensures |ds| <= 10
  {
    if |ds| > 10 {
      LeadingDigitBound(ds);
      TenToTheTenth();
      Power10Monotone(10, |ds| - 1);
    }
  }

  // -------- reading

  function Truncate(d: real): int {
    if d >= 0.0 then d.Floor else -((-d).Floor)
  }

  /** valueint of a number node: truncated and saturated. */
  function Saturate(d: real): int {
    if d >= INT_MAX as real then INT_MAX
    else if d <= INT_MIN as real then INT_MIN
    else Truncate(d)
  }

  /** `n` is `d` without its fraction, or the nearest int when `d` lies outside their range. */
  predicate IsCast(n: int, d: real) {
    if d >= INT_MAX as real then n == INT_MAX
    else if d <= INT_MIN as real then n == INT_MIN
    else if d < 0.0 then (n - 1) as real < d <= n as real
    else n as real <= d < (n + 1) as real
  }

  /** A conversion to int cuts towards zero and saturates. */
  lemma SaturateIsCast(n: int, d: real)
    ensures IsCast(n, d) <==> n == Saturate(d)
  {
    if d < 0.0 {
      assert -d - 1.0 < (-d).Floor as real <= -d;
    } else {
      assert d - 1.0 < d.Floor as real <= d;
    }
  }

  /** The test print_number makes before it uses `%d`. */
  predicate IsInt32(d: real) {
    d == Saturate(d) as real
  }

  lemma IntegersAreInt32(n: int)
    requires INT_MIN <= n <= INT_MAX
    ensures Saturate(n as real) == n && IsInt32(n as real)
  {
    assert (n as real).Floor == n;
    assert (-(n as real)).Floor == -n by {
      assert -(n as real) == (-n) as real;
    }
  }

  /** How many bytes from `off` on parse_number copies, having copied `k`. */
  function NumberRun(s: seq<byte>, off: nat, k: nat): (n: nat)
    requires off + k <= |s|
    ensures k <= n && off + n <= |s|
    decreases |s| - off - k
  {
    if k < NUMBER_TEXT_MAX && off + k < |s| && IsNumberByte(s[off + k]) then NumberRun(s, off, k + 1) else k
  }

  function DigitRun(t: seq<byte>, i: nat): (e: nat)
    requires i <= |t|
    ensures i <= e <= |t|
    decreases |t| - i
  {
    if i < |t| && IsDigit(t[i]) then DigitRun(t, i + 1) else i
  }

  predicate IsSign(t: seq<byte>, i: nat) {
    i < |t| && (t[i] == MINUS || t[i] == PLUS)
  }

  predicate IsMinus(t: seq<byte>, i: nat) {
    i < |t| && t[i] == MINUS
  }

  function SkipSign(t: seq<byte>, i: nat): (e: nat)
    requires i <= |t|
    ensures i <= e <= |t|
  {
    if IsSign(t, i) then i + 1 else i
  }

  /** End of the fraction that starts at `i`, or `i` when there is none. */
  function FractionEnd(t: seq<byte>, i: nat): (e: nat)
    requires i <= |t|
    ensures i <= e <= |t|
  {
    if i < |t| && t[i] == DOT then DigitRun(t, i + 1) else i
  }

  function FractionDigits(t: seq<byte>, i: nat): seq<byte>
    requires i <= |t|
  {
    var e := FractionEnd(t, i);
    if e > i then t[i + 1..e] else []
  }

  /** End of the exponent that starts at `i`, or `i` when no digit follows the `e`. */
  function ExponentEnd(t: seq<byte>, i: nat): (e: nat)
    requires i <= |t|
    ensures i <= e <= |t|
  {
    if i < |t| && (t[i] == LOWER_E || t[i] == UPPER_E) then
      var d := SkipSign(t, i + 1);
      var e := DigitRun(t, d);
      if e > d then e else i
    else i
  }

  function ExponentValue(t: seq<byte>, i: nat): int
    requires i <= |t|
  {
    if ExponentEnd(t, i) == i then 0
    else
      var d := SkipSign(t, i + 1);
      var n := DigitsValue(t[d..DigitRun(t, d)]);
      Signed(IsMinus(t, i + 1), n)
  }

  /** `n` times ten to the `e`. */
  function Scaled(n: real, e: int): real
    decreases if e < 0 then -e else e
  {
    if e == 0 then n else if e > 0 then Scaled(n * 10.0, e - 1) else Scaled(n / 10.0, e + 1)
  }

  datatype Conversion = Conversion(used: nat, number: real)

  /** strtod on a text of number bytes: the longest decimal prefix and its value. */
  function Strtod(t: seq<byte>): (c: Conversion)
    ensures c.used <= |t|
  {
    var i0 := SkipSign(t, 0);
    var i1 := DigitRun(t, i0);
    var i2 := FractionEnd(t, i1);
    var fraction := FractionDigits(t, i1);
    if i1 - i0 + |fraction| == 0 then Conversion(0, 0.0)
    else
      var e := ExponentValue(t, i2);
      var magnitude := Scaled(DigitsValue(t[i0..i1]) as real, e)
          + Scaled(DigitsValue(fraction) as real, e - |fraction|);
      Conversion(ExponentEnd(t, i2), if IsMinus(t, 0) then -magnitude else magnitude)
  }

  /** What a conversion of the text at `off` means: nothing when strtod took no byte. */
  function NumberAt(off: nat, c: Conversion): Option<(real, nat)> {
    if c.used == 0 then None else Some((c.number, off + c.used))
  }

  /** parse_number: the value and the offset after it. */
  function ParseNumber(s: seq<byte>, off: nat): (r: Option<(real, nat)>)
    requires off <= |s|
    ensures r.Some? ==> off < r.value.1 <= |s|
  {
    NumberAt(off, Strtod(s[off..off + NumberRun(s, off, 0)]))
  }

  /** The number of a text that was copied out of the buffer. */
  lemma ParseNumberByStrtod(s: seq<byte>, off: nat, text: seq<byte>)
    requires off <= |s| && text == s[off..off + NumberRun(s, off, 0)]
    ensures ParseNumber(s, off) == NumberAt(off, Strtod(text))
  {
    hide Strtod, NumberAt, NumberRun;
  }

  lemma {:induction false} NumberRunOfText(s: seq<byte>, off: nat, t: seq<byte>, k: nat)
    requires At(s, off, t) && k <= |t| <= NUMBER_TEXT_MAX
    requires forall i :: 0 <= i < |t| ==> IsNumberByte(t[i])
    requires off + |t| == |s| || !IsNumberByte(s[off + |t|])
    ensures NumberRun(s, off, k) == |t|
    decreases |t| - k
  {
    if k < |t| {
      AtByte(s, off, t, k);
      NumberRunOfText(s, off, t, k + 1);
    }
  }
}
