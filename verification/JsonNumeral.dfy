/** Numbers by the grammar of RFC 8259 (section 6): their texts, their values, and the proof that parse_number reads
    every one of them that fits its buffer. */
module JsonNumeral {
  import opened Bytes
  import opened JsonNumber

  datatype Sign = NoSign | PlusSign | MinusSign

  datatype Exponent = NoExponent | Exponent(upper: bool, sign: Sign, digits: seq<byte>)

  /** A minus or not, the digits of the integer, those behind the point (none without a point), the exponent. */
  datatype Numeral = Numeral(negative: bool, whole: seq<byte>, fraction: seq<byte>, exponent: Exponent)

  /** Digits in front of the point or behind it, and behind an `e`; zeros may stand in front. */
  predicate Lenient(n: Numeral) {
    && AllDigits(n.whole) && AllDigits(n.fraction) && n.whole + n.fraction != []
    && (n.exponent.Exponent? ==> n.exponent.digits != [] && AllDigits(n.exponent.digits))
  }

  /** The grammar's conditions: an integer in front of the point, without superfluous zeros. */
  predicate NumeralOk(n: Numeral) {
    Lenient(n) && n.whole != [] && (|n.whole| > 1 ==> n.whole[0] != DIGIT0)
  }

  function MinusText(negative: bool): seq<byte> {
    if negative then [45] else []
  }

  function PointText(fraction: seq<byte>): seq<byte> {
    if fraction == [] then [] else [46] + fraction
  }

  function SignText(sign: Sign): seq<byte> {
    match sign
    case NoSign => []
    case PlusSign => [43]
    case MinusSign => [45]
  }

  function ExponentText(e: Exponent): seq<byte> {
    match e
    case NoExponent => []
    case Exponent(upper, sign, digits) => [if upper then 69 else 101] + (SignText(sign) + digits)
  }

  function NumeralText(n: Numeral): seq<byte> {
    MinusText(n.negative) + (n.whole + (PointText(n.fraction) + ExponentText(n.exponent)))
  }

  // -------- values

  /** Ten to the `e`. */
  function Ten(e: int): (t: real)
    ensures t > 0.0
    decreases if e < 0 then -e else e
  {
    if e == 0 then 1.0 else if e > 0 then Ten(e - 1) * 10.0 else Ten(e + 1) / 10.0
  }

  function ExponentOf(e: Exponent): int {
    match e
    case NoExponent => 0
    case Exponent(_, sign, digits) => if sign == MinusSign then -DigitsValue(digits) else DigitsValue(digits)
  }

  /** All digits as one integer, the point moved left over the fraction, the exponent applied. */
  function NumeralValue(n: Numeral): real {
    var v := DigitsValue(n.whole + n.fraction) as real * Ten(ExponentOf(n.exponent) - |n.fraction|);
    if n.negative then -v else v
  }

  lemma {:induction false} ScaledIsTimes(n: real, e: int)
    ensures Scaled(n, e) == n * Ten(e)
    decreases if e < 0 then -e else e
  {
    if e > 0 {
      ScaledIsTimes(n * 10.0, e - 1);
      assert n * 10.0 * Ten(e - 1) == n * (Ten(e - 1) * 10.0);
    } else if e < 0 {
      ScaledIsTimes(n / 10.0, e + 1);
      assert n / 10.0 * Ten(e + 1) == n * (Ten(e + 1) / 10.0);
    }
  }

  lemma TenStep(e: int)
    ensures Ten(e) == Ten(e - 1) * 10.0
  {
  }

  lemma DigitsStep(ds: seq<byte>)
    ensures DigitsValue([]) == 0
    ensures ds != [] ==>
      DigitsValue(ds) == 10 * DigitsValue(ds[..|ds| - 1]) + (ds[|ds| - 1] as int - DIGIT0 as int)
  {
  }

  /** Digits behind digits. */
  lemma {:induction false} DigitsBehind(a: seq<byte>, b: seq<byte>, e: int)
    ensures DigitsValue(a + b) as real * Ten(e - |b|)
            == DigitsValue(a) as real * Ten(e) + DigitsValue(b) as real * Ten(e - |b|)
    decreases |b|
  {
    hide DigitsValue, Ten;
    DigitsStep(b);
    if b == [] {
      Nothing(a);
      NoDigits(DigitsValue(a), Ten(e));
    } else {
      var n := |b| - 1;
      var init, ab := b[..n], a + b;
      assert ab[..|ab| - 1] == a + init && ab[|ab| - 1] == b[n];
      DigitsStep(ab);
      DigitsBehind(a, init, e);
      TenStep(e - n);
      assert e - n - 1 == e - |b|;
      Distribute(DigitsValue(a + init), DigitsValue(a), DigitsValue(init), b[n] as int - DIGIT0 as int,
                 Ten(e), Ten(e - n), Ten(e - n - 1));
    }
  }

  lemma NoDigits(a: int, t: real)
    ensures a as real * t == a as real * t + 0 as real * t
  {
  }

  lemma Distribute(ab: int, a: int, b: int, d: int, whole: real, t: real, u: real)
    requires ab as real * t == a as real * whole + b as real * t && t == u * 10.0
    ensures (10 * ab + d) as real * u == a as real * whole + (10 * b + d) as real * u
  {
    assert (10 * ab + d) as real == ab as real * 10.0 + d as real;
    assert (10 * b + d) as real == b as real * 10.0 + d as real;
    assert (ab as real * 10.0 + d as real) * u == ab as real * t + d as real * u;
    assert (b as real * 10.0 + d as real) * u == b as real * t + d as real * u;
  }

  // -------- strtod reads them

  lemma {:induction false} DigitRunStops(t: seq<byte>, i: nat, ds: seq<byte>)
    requires At(t, i, ds) && AllDigits(ds) && (i + |ds| == |t| || !IsDigit(t[i + |ds|]))
    ensures DigitRun(t, i) == i + |ds|
    decreases |ds|
  {
    if ds != [] {
      AtByte(t, i, ds, 0);
      Cons(ds);
      AtAppend(t, i, [ds[0]], ds[1..]);
      DigitRunStops(t, i + 1, ds[1..]);
    }
  }

  lemma SignIsSkipped(t: seq<byte>, i: nat, sign: Sign, digits: seq<byte>)
    requires At(t, i, SignText(sign) + digits) && digits != [] && AllDigits(digits)
    ensures SkipSign(t, i) == i + |SignText(sign)| && IsMinus(t, i) == (sign == MinusSign)
    ensures At(t, SkipSign(t, i), digits)
  {
    AtAppend(t, i, SignText(sign), digits);
    AtByte(t, i + |SignText(sign)|, digits, 0);
    if sign != NoSign {
      AtByte(t, i, SignText(sign), 0);
    }
  }

  /** The exponent at the end of the text. */
  lemma ExponentIsRead(t: seq<byte>, i: nat, e: Exponent)
    requires At(t, i, ExponentText(e)) && i + |ExponentText(e)| == |t|
    requires e.Exponent? ==> e.digits != [] && AllDigits(e.digits)
    ensures ExponentEnd(t, i) == |t| && ExponentValue(t, i) == ExponentOf(e)
  {
    if e.Exponent? {
      var mark := [if e.upper then 69 else 101];
      AtAppend(t, i, mark, SignText(e.sign) + e.digits);
      AtByte(t, i, mark, 0);
      SignIsSkipped(t, i + 1, e.sign, e.digits);
      var d := SkipSign(t, i + 1);
      DigitRunStops(t, d, e.digits);
      AtSlice(t, d, e.digits);
    }
  }

  /** The digits behind the point. */
  lemma FractionIsRead(t: seq<byte>, i: nat, fraction: seq<byte>, e: Exponent)
    requires At(t, i, PointText(fraction) + ExponentText(e)) && i + |PointText(fraction) + ExponentText(e)| == |t|
    requires AllDigits(fraction)
    ensures FractionEnd(t, i) == i + |PointText(fraction)| && FractionDigits(t, i) == fraction
    ensures At(t, i + |PointText(fraction)|, ExponentText(e))
  {
    AtAppend(t, i, PointText(fraction), ExponentText(e));
    if e.Exponent? {
      AtByte(t, i + |PointText(fraction)|, ExponentText(e), 0);
    }
    if fraction != [] {
      AtAppend(t, i, [46], fraction);
      AtByte(t, i, [46], 0);
      DigitRunStops(t, i + 1, fraction);
      AtSlice(t, i + 1, fraction);
    }
  }

  /** What stands behind the digits of the integer is no digit. */
  lemma BehindWhole(t: seq<byte>, i: nat, n: Numeral)
    requires At(t, i, PointText(n.fraction) + ExponentText(n.exponent))
    requires i + |PointText(n.fraction) + ExponentText(n.exponent)| == |t|
    ensures i == |t| || !IsDigit(t[i])
  {
    var rest := PointText(n.fraction) + ExponentText(n.exponent);
    if rest != [] {
      AtByte(t, i, rest, 0);
      assert rest[0] == 46 || rest[0] == 69 || rest[0] == 101;
    }
  }

  lemma MinusIsSkipped(t: seq<byte>, negative: bool, rest: seq<byte>)
    requires At(t, 0, MinusText(negative)) && At(t, |MinusText(negative)|, rest)
    requires rest != [] && (IsDigit(rest[0]) || rest[0] == 46)
    ensures SkipSign(t, 0) == |MinusText(negative)| && IsMinus(t, 0) == negative
  {
    AtByte(t, |MinusText(negative)|, rest, 0);
    if negative {
      AtByte(t, 0, MinusText(true), 0);
    }
  }

  lemma BehindMinus(n: Numeral)
    requires Lenient(n)
    ensures var rest := n.whole + (PointText(n.fraction) + ExponentText(n.exponent));
            rest != [] && (IsDigit(rest[0]) || rest[0] == 46)
  {
  }

  /** The minus and the digits of the integer. */
  lemma WholeIsRead(t: seq<byte>, n: Numeral)
    requires Lenient(n) && t == NumeralText(n)
    ensures var i := |MinusText(n.negative)|;
            SkipSign(t, 0) == i && IsMinus(t, 0) == n.negative && DigitRun(t, i) == i + |n.whole|
            && t[i..i + |n.whole|] == n.whole
            && At(t, i + |n.whole|, PointText(n.fraction) + ExponentText(n.exponent))
  {
    hide At, MinusText, PointText, ExponentText, DigitRun, SkipSign, IsMinus;
    var rest := PointText(n.fraction) + ExponentText(n.exponent);
    var i := |MinusText(n.negative)|;
    AtWhole(t);
    AtAppend(t, 0, MinusText(n.negative), n.whole + rest);
    AtAppend(t, i, n.whole, rest);
    AtSlice(t, i, n.whole);
    BehindMinus(n);
    MinusIsSkipped(t, n.negative, n.whole + rest);
    BehindWhole(t, i + |n.whole|, n);
    DigitRunStops(t, i, n.whole);
  }

  lemma AtWhole(t: seq<byte>)
    ensures At(t, 0, t)
  {
  }

  /** strtod puts the parts together. */
  lemma StrtodByParts(t: seq<byte>, i0: nat, i1: nat, i2: nat, fraction: seq<byte>, e: int)
    requires i0 == SkipSign(t, 0) && i1 == DigitRun(t, i0) && i2 == FractionEnd(t, i1)
    requires fraction == FractionDigits(t, i1) && e == ExponentValue(t, i2) && i1 - i0 + |fraction| > 0
    ensures var m := Scaled(DigitsValue(t[i0..i1]) as real, e) + Scaled(DigitsValue(fraction) as real, e - |fraction|);
            Strtod(t) == Conversion(ExponentEnd(t, i2), if IsMinus(t, 0) then -m else m)
  {
    hide DigitsValue, Scaled, DigitRun, SkipSign, FractionEnd, FractionDigits, ExponentValue, ExponentEnd;
  }

  lemma Magnitude(whole: seq<byte>, fraction: seq<byte>, e: int)
    ensures Scaled(DigitsValue(whole) as real, e) + Scaled(DigitsValue(fraction) as real, e - |fraction|)
            == DigitsValue(whole + fraction) as real * Ten(e - |fraction|)
  {
    hide Scaled, DigitsValue, Ten;
    ScaledIsTimes(DigitsValue(whole) as real, e);
    ScaledIsTimes(DigitsValue(fraction) as real, e - |fraction|);
    DigitsBehind(whole, fraction, e);
  }

  lemma TextLength(n: Numeral)
    ensures |NumeralText(n)|
            == |MinusText(n.negative)| + |n.whole| + |PointText(n.fraction)| + |ExponentText(n.exponent)|
  {
  }

  lemma ValueByMagnitude(n: Numeral, e: int, m: real)
    requires e == ExponentOf(n.exponent)
    requires m == DigitsValue(n.whole + n.fraction) as real * Ten(e - |n.fraction|)
    ensures NumeralValue(n) == if n.negative then -m else m
  {
    hide DigitsValue, Ten;
  }

  /** strtod takes the whole text and gives its value. */
  lemma StrtodOfNumeral(n: Numeral)
    requires Lenient(n)
    ensures Strtod(NumeralText(n)) == Conversion(|NumeralText(n)|, NumeralValue(n))
  {
    hide SkipSign, DigitRun, FractionEnd, FractionDigits, ExponentEnd, ExponentValue, DigitsValue, Ten, Scaled,
         ExponentText, PointText, MinusText, IsMinus, Strtod, ExponentOf, NumeralText, NumeralValue, At;
    var t := NumeralText(n);
    var i0 := |MinusText(n.negative)|;
    var i1 := i0 + |n.whole|;
    var i2 := i1 + |PointText(n.fraction)|;
    TextLength(n);
    WholeIsRead(t, n);
    FractionIsRead(t, i1, n.fraction, n.exponent);
    ExponentIsRead(t, i2, n.exponent);
    var e := ExponentOf(n.exponent);
    StrtodByParts(t, i0, i1, i2, n.fraction, e);
    Magnitude(n.whole, n.fraction, e);
    ValueByMagnitude(n, e, DigitsValue(n.whole + n.fraction) as real * Ten(e - |n.fraction|));
  }

  lemma NumeralBytes(n: Numeral)
    requires Lenient(n)
    ensures NumeralText(n) != [] && (NumeralOk(n) ==> IsDigit(NumeralText(n)[0]) || NumeralText(n)[0] == MINUS)
    ensures forall i :: 0 <= i < |NumeralText(n)| ==> IsNumberByte(NumeralText(n)[i])
  {
  }

  /** Reading a number gives its value, whatever follows it, and stops right after it. */
  lemma NumeralIsRead(s: seq<byte>, off: nat, n: Numeral)
    requires Lenient(n) && At(s, off, NumeralText(n)) && |NumeralText(n)| <= NUMBER_TEXT_MAX
    requires var e := off + |NumeralText(n)|; e == |s| || !IsNumberByte(s[e])
    ensures ParseNumber(s, off) == Some((NumeralValue(n), off + |NumeralText(n)|))
  {
    hide Strtod, NumberRun, NumeralText, NumeralValue, Lenient;
    var t := NumeralText(n);
    NumeralBytes(n);
    NumberRunOfText(s, off, t, 0);
    AtSlice(s, off, t);
    StrtodOfNumeral(n);
  }

  /** An integer as a numeral. */
  function Integer(n: int): Numeral {
    Numeral(n < 0, Digits(if n < 0 then -n else n), [], NoExponent)
  }

  lemma IntegerIsNumeral(n: int)
    requires INT_MIN <= n <= INT_MAX
    ensures NumeralOk(Integer(n)) && NumeralText(Integer(n)) == Decimal(n) && NumeralValue(Integer(n)) == n as real
    ensures |NumeralText(Integer(n))| <= NUMBER_TEXT_MAX
  {
    hide DigitsValue, NumeralText, NumeralValue, Decimal;
    DecimalIsShort(n);
    IntegerText(n);
    IntegerValue(n);
  }

  lemma IntegerText(n: int)
    ensures NumeralText(Integer(n)) == Decimal(n)
  {
    hide Digits;
    var ds := Integer(n).whole;
    assert ds + (PointText([]) + ExponentText(NoExponent)) == ds;
    Nothing(ds);
  }

  lemma IntegerValue(n: int)
    ensures NumeralValue(Integer(n)) == n as real
  {
    hide DigitsValue, Digits;
    var m := if n < 0 then -n else n;
    Nothing(Digits(m));
    DigitsValueOfDigits(m);
    assert Ten(0) == 1.0 && m as real * 1.0 == m as real;
  }

  /** Of a longer run of digits only the first 63 are read. */
  lemma LongNumberIsCut(s: seq<byte>, off: nat, ds: seq<byte>)
    requires At(s, off, ds) && AllDigits(ds) && |ds| >= 63
    ensures ParseNumber(s, off) == Some((DigitsValue(ds[..63]) as real, off + 63))
  {
    hide Strtod, NumeralText, NumeralValue, DigitsValue;
    var head := ds[..63];
    TakeDrop(ds, 63);
    AtAppend(s, off, head, ds[63..]);
    AtSlice(s, off, head);
    RunIsCut(s, off, ds, 0);
    DigitsAlone(head);
  }

  lemma {:induction false} RunIsCut(s: seq<byte>, off: nat, ds: seq<byte>, k: nat)
    requires At(s, off, ds) && AllDigits(ds) && k <= 63 <= |ds|
    ensures NumberRun(s, off, k) == 63
    decreases 63 - k
  {
    if k < 63 {
      AtByte(s, off, ds, k);
      RunIsCut(s, off, ds, k + 1);
    }
  }

  /** Digits alone are read to their end, with or without zeros in front. */
  lemma DigitsAlone(ds: seq<byte>)
    requires ds != [] && AllDigits(ds)
    ensures Strtod(ds) == Conversion(|ds|, DigitsValue(ds) as real)
  {
    hide DigitsValue, Scaled;
    AtWhole(ds);
    DigitRunStops(ds, 0, ds);
    assert ds[0..|ds|] == ds && SkipSign(ds, 0) == 0 && FractionDigits(ds, |ds|) == [];
    DigitsStep([]);
    assert FractionEnd(ds, |ds|) == |ds| && ExponentValue(ds, |ds|) == 0;
    StrtodByParts(ds, 0, |ds|, |ds|, [], 0);
    assert Scaled(DigitsValue(ds) as real, 0) == DigitsValue(ds) as real
        && Scaled(DigitsValue([]) as real, 0) == 0.0 by {
      ScaledByNothing(DigitsValue(ds) as real);
      ScaledByNothing(DigitsValue([]) as real);
    }
  }

  lemma ScaledByNothing(n: real)
    ensures Scaled(n, 0) == n
  {
  }
}
