/**
 Fixed-point decimals over scaled integers (src/lib/decimal.ts). Every Decimal comes out
 of the parser, so its value is not negative and its scale is at most 18.
 */
module Decimal {
  import opened Wrappers
  import opened Arithmetic
  import opened DecimalText
  import opened Sequences

  datatype Decimal = Decimal(value: nat, scale: nat)

  datatype Error = ValidationError | InternalError | BadRequest

  const MAX_SCALE := 18

  predicate Valid(d: Decimal) {
    d.scale <= MAX_SCALE
  }

  // ----- parsing and printing -----

  // One or more digits, then optionally a point and one to eighteen digits.
  ghost predicate Matches(s: string) {
    || (s != [] && AllDigits(s))
    || (exists whole, fraction :: Pointed(s, whole, fraction))
  }

  function Parse(s: string): (r: Result<Decimal, Error>)
    ensures r.Success? ==> Valid(r.value)
    ensures r.Failure? ==> r.error == ValidationError
  {
    var dot := IndexOf(s, '.');
    if dot == |s| then
      if s != [] && AllDigits(s) then Success(Decimal(ValueOf(s), 0)) else Failure(ValidationError)
    else
      var whole, fraction := s[..dot], s[dot + 1..];
      if whole != [] && AllDigits(whole) && 1 <= |fraction| <= MAX_SCALE && AllDigits(fraction) then
        Success(Decimal(ValueOf(whole + fraction), |fraction|))
      else
        Failure(ValidationError)
  }

  function ToString(d: Decimal): string {
    if d.scale == 0 then Digits(d.value)
    else
      var digits := Digits(d.value);
      if |digits| <= d.scale then "0." + (Zeros(d.scale - |digits|) + digits)
      else digits[..|digits| - d.scale] + "." + digits[|digits| - d.scale..]
  }

  lemma ParsePlain(s: string)
    requires s != [] && AllDigits(s)
    ensures Parse(s) == Success(Decimal(ValueOf(s), 0))
  {
    var dot := IndexOf(s, '.');
    assert dot < |s| ==> IsDigit(s[dot]);
  }

  lemma ParsePointed(whole: string, fraction: string)
    requires whole != [] && AllDigits(whole) && 1 <= |fraction| <= MAX_SCALE && AllDigits(fraction)
    ensures Parse(whole + "." + fraction) == Success(Decimal(ValueOf(whole + fraction), |fraction|))
  {
    var s := whole + "." + fraction;
    assert forall i :: 0 <= i < |whole| ==> s[i] == whole[i] && IsDigit(s[i]);
    assert s[|whole|] == '.';
    var dot := IndexOf(s, '.');
    assert dot == |whole|;
    assert s[..dot] == whole && s[dot + 1..] == fraction;
  }

  // The shape of a string with a point.
  ghost predicate Pointed(s: string, whole: string, fraction: string) {
    && s == whole + "." + fraction
    && whole != [] && AllDigits(whole) && 1 <= |fraction| <= 18 && AllDigits(fraction)
  }

  /** The parser accepts exactly the strings of the documented pattern. */
  lemma ParseAcceptsPattern(s: string)
    ensures Parse(s).Success? <==> Matches(s)
  {
    if Matches(s) {
      if s != [] && AllDigits(s) {
        ParsePlain(s);
      } else {
        var whole, fraction :| Pointed(s, whole, fraction);
        ParsePointed(whole, fraction);
      }
    }
    if Parse(s).Success? {
      AcceptedShape(s);
    }
  }

  lemma AcceptedShape(s: string)
    requires Parse(s).Success?
    ensures Matches(s)
  {
    var dot := IndexOf(s, '.');
    if dot < |s| {
      var whole, fraction := s[..dot], s[dot + 1..];
      assert s == whole + "." + fraction;
      assert Pointed(s, whole, fraction);
    }
  }

  /** Printing and parsing again gives the same value and the same scale, for every Decimal. */
  lemma RoundTrip(d: Decimal)
    requires Valid(d)
    ensures Parse(ToString(d)) == Success(d)
  {
    var digits := Digits(d.value);
    ValueOfDigits(d.value);
    if d.scale == 0 {
      ParsePlain(digits);
    } else if |digits| <= d.scale {
      SmallRoundTrip(d);
    } else {
      var cut := |digits| - d.scale;
      ParsePointed(digits[..cut], digits[cut..]);
      assert digits == digits[..cut] + digits[cut..];
    }
  }

  lemma SmallRoundTrip(d: Decimal)
    requires Valid(d) && d.scale > 0 && |Digits(d.value)| <= d.scale
    ensures Parse(ToString(d)) == Success(d)
  {
    var digits := Digits(d.value);
    var fraction := Zeros(d.scale - |digits|) + digits;
    ZerosThen(d.scale - |digits|, digits);
    ValueOfDigits(d.value);
    ParseZeroPoint(fraction);
    assert ToString(d) == "0." + fraction;
  }

  lemma ParseZeroPoint(fraction: string)
    requires 1 <= |fraction| <= MAX_SCALE && AllDigits(fraction)
    ensures Parse("0." + fraction) == Success(Decimal(ValueOf(fraction), |fraction|))
  {
    ParsePointed("0", fraction);
    assert "0" + "." == "0.";
    LeadingZero(fraction);
  }

  /** A string survives parsing and printing exactly when its integer part has no redundant zero. */
  lemma PrintsBackIffCanonical(s: string)
    requires Parse(s).Success?
    ensures ToString(Parse(s).value) == s <==> Canonical(s[..IndexOf(s, '.')])
  {
    var dot := IndexOf(s, '.');
    var d := Parse(s).value;
    if dot == |s| {
      assert s[..dot] == s;
      if Canonical(s) { DigitsOfValue(s); }
      ValueOfDigits(d.value);
    } else {
      var whole, fraction := s[..dot], s[dot + 1..];
      assert s == whole + "." + fraction;
      PrintedShape(whole, fraction);
    }
  }

  lemma PrintedShape(whole: string, fraction: string)
    requires whole != [] && AllDigits(whole) && fraction != [] && AllDigits(fraction)
    ensures ToString(Decimal(ValueOf(whole + fraction), |fraction|)) == whole + "." + fraction <==> Canonical(whole)
  {
    ValueOfConcat(whole, fraction);
    ValueBound(fraction);
    PrintedParts(ValueOf(whole + fraction), ValueOf(whole), ValueOf(fraction), |fraction|);
    PadOfValue(fraction);
    assert ToString(Decimal(ValueOf(whole + fraction), |fraction|)) == Digits(ValueOf(whole)) + "." + fraction;
    ValueOfDigits(ValueOf(whole));
    if Canonical(whole) {
      DigitsOfValue(whole);
    }
    SameSplit(Digits(ValueOf(whole)), whole, ".", fraction);
  }

  lemma SameSplit(a: string, b: string, point: string, tail: string)
    ensures a + point + tail == b + point + tail ==> a == b
  {
    if a + point + tail == b + point + tail {
      assert |a| == |b|;
      assert (a + point + tail)[..|a|] == a && (b + point + tail)[..|b|] == b;
    }
  }

  /** A value is printed as its whole part, a point, and its padded fractional part. */
  lemma PrintedParts(value: nat, whole: nat, fraction: nat, scale: nat)
    requires scale >= 1 && fraction < Pow10(scale) && value == whole * Pow10(scale) + fraction
    ensures ToString(Decimal(value, scale)) == Digits(whole) + "." + PadStart(Digits(fraction), scale)
  {
    if whole == 0 {
      DigitsWidth(fraction, scale);
      PrintShort(Decimal(fraction, scale));
    } else {
      JoinedDigits(value, whole, fraction, scale);
      PadStartValue(fraction, scale);
      PrintLong(Decimal(value, scale), Digits(whole), PadStart(Digits(fraction), scale));
    }
  }

  lemma PrintShort(d: Decimal)
    requires d.scale > 0 && |Digits(d.value)| <= d.scale
    ensures ToString(d) == Digits(0) + "." + PadStart(Digits(d.value), d.scale)
  {
    assert Digits(0) == "0" && "0" + "." == "0.";
    assert [] + Digits(d.value) == Digits(d.value);
  }

  lemma PrintLong(d: Decimal, left: string, right: string)
    requires d.scale > 0 && Digits(d.value) == left + right && |right| == d.scale && left != []
    ensures ToString(d) == left + "." + right
  {
    assert (left + right)[..|left|] == left && (left + right)[|left|..] == right;
  }

  lemma JoinedDigits(value: nat, whole: nat, fraction: nat, scale: nat)
    requires scale >= 1 && fraction < Pow10(scale) && whole > 0 && value == whole * Pow10(scale) + fraction
    ensures Digits(value) == Digits(whole) + PadStart(Digits(fraction), scale)
  {
    var left, right := Digits(whole), PadStart(Digits(fraction), scale);
    PadStartValue(fraction, scale);
    ValueOfConcat(left, right);
    ValueOfDigits(whole);
    assert (left + right)[0] == left[0];
    DigitsOfValue(left + right);
  }

  // ----- scaled integers -----

  function TruncMod(a: int, b: int): int
    requires b > 0
  {
    if a >= 0 then a % b else -((-a) % b)
  }

  function IntToString(n: int): string {
    if n < 0 then "-" + Digits(-n) else Digits(n)
  }

  /** Prints the two parts and parses them again. */
  function FromScaledBigInt(v: int, scale: int): (r: Result<Decimal, Error>) {
    if scale < 0 || scale > MAX_SCALE then Failure(InternalError)
    else
      var divisor := Pow10(scale);
      var whole, fraction := TruncDiv(v, divisor), TruncMod(v, divisor);
      if scale == 0 then Parse(IntToString(whole))
      else Parse(IntToString(whole) + "." + PadStart(IntToString(fraction), scale))
  }

  // An accepted string consists of digits and points.
  lemma AcceptedCharacters(s: string, k: nat)
    requires k < |s|
    ensures Parse(s).Success? ==> IsDigit(s[k]) || s[k] == '.'
  {
    var dot := IndexOf(s, '.');
    if k < dot {
      assert dot < |s| ==> s[k] == s[..dot][k];
    } else if k > dot {
      assert s[k] == s[dot + 1..][k - dot - 1];
    }
  }

  lemma MinusIsRejected(s: string)
    requires '-' in s
    ensures Parse(s) == Failure(ValidationError)
  {
    var k :| 0 <= k < |s| && s[k] == '-';
    AcceptedCharacters(s, k);
  }

  /** For every non-negative value the Decimal with this value and scale; every negative value is refused. */
  lemma FromScaledIsExact(v: int, scale: int)
    ensures FromScaledBigInt(v, scale) ==
      if scale < 0 || scale > 18 then Failure(InternalError)
      else if v < 0 then Failure(ValidationError)
      else Success(Decimal(v, scale))
  {
    if 0 <= scale <= MAX_SCALE {
      if v < 0 {
        NegativeIsRefused(v, scale);
      } else {
        NonNegativeIsExact(v, scale);
      }
    }
  }

  lemma NonNegativeIsExact(v: nat, scale: nat)
    requires scale <= MAX_SCALE
    ensures FromScaledBigInt(v, scale) == Success(Decimal(v, scale))
  {
    var d := Pow10(scale);
    RoundTrip(Decimal(v, scale));
    if scale == 0 {
      assert d == 1 && v / 1 == v;
    } else {
      FloorDivision(v, d);
      PrintedParts(v, v / d, v % d, scale);
    }
  }

  lemma NegativeIsRefused(v: int, scale: nat)
    requires v < 0 && scale <= MAX_SCALE
    ensures FromScaledBigInt(v, scale) == Failure(ValidationError)
  {
    var d := Pow10(scale);
    var whole, fraction := TruncDiv(v, d), TruncMod(v, d);
    FloorDivision(-v, d);
    assert whole <= 0;
    if scale == 0 {
      assert whole == v;
      MinusIsRejected("-" + Digits(-v));
    } else {
      var left, right := IntToString(whole), PadStart(IntToString(fraction), scale);
      if whole < 0 {
        assert left[0] == '-' && (left + "." + right)[0] == '-';
      } else {
        assert fraction == v;
        var text := IntToString(fraction);
        assert text[0] == '-';
        assert right[|right| - |text|] == '-';
        assert (left + "." + right)[|left| + 1 + |right| - |text|] == '-';
      }
      MinusIsRejected(left + "." + right);
    }
  }

  // ----- arithmetic -----

  /** The rational number a Decimal stands for. */
  ghost function Val(d: Decimal): real {
    Ratio(d.value, Pow10(d.scale))
  }

  ghost function Ratio(n: int, p: int): real
    requires p > 0
  {
    n as real / p as real
  }

  function Max(a: nat, b: nat): nat {
    if a >= b then a else b
  }

  function Rescaled(d: Decimal, scale: nat): nat
    requires d.scale <= scale
  {
    d.value * Pow10(scale - d.scale)
  }

  function Add(a: Decimal, b: Decimal): Result<Decimal, Error> {
    var common := Max(a.scale, b.scale);
    FromScaledBigInt(Rescaled(a, common) + Rescaled(b, common), common)
  }

  function Subtract(a: Decimal, b: Decimal): Result<Decimal, Error> {
    var common := Max(a.scale, b.scale);
    FromScaledBigInt(Rescaled(a, common) - Rescaled(b, common), common)
  }

  function Multiply(a: Decimal, b: Decimal): Result<Decimal, Error> {
    var value, scale := a.value * b.value, a.scale + b.scale;
    if scale > MAX_SCALE then FromScaledBigInt(Quotient(value, Pow10(scale - MAX_SCALE)), MAX_SCALE)
    else FromScaledBigInt(value, scale)
  }

  function Divide(a: Decimal, b: Decimal): Result<Decimal, Error>
    requires Valid(a)  // keeps the exponent from going negative
  {
    if b.value == 0 then Failure(BadRequest)
    else FromScaledBigInt(Quotient(a.value * Pow10(MAX_SCALE + b.scale - a.scale), b.value), MAX_SCALE)
  }

  function CompareTo(a: Decimal, b: Decimal): int {
    var common := Max(a.scale, b.scale);
    var x, y := Rescaled(a, common), Rescaled(b, common);
    if x == y then 0 else if x > y then 1 else -1
  }

  datatype Rounding = Round | Floor | Ceil | Truncate

  // Floor division of non-negative integers.
  function Quotient(v: nat, d: nat): (q: nat)
    requires d > 0
    ensures q * d <= v < q * d + d
  {
    FloorDivision(v, d);
    v / d
  }

  // The scaled integer before the range check.
  function Scaled(d: Decimal, target: nat, mode: Rounding): nat {
    if d.scale <= target then Rescaled(d, target)
    else
      var divisor := Pow10(d.scale - target);
      var quotient := Quotient(d.value, divisor);
      var remainder := d.value - quotient * divisor;
      if remainder != 0 && (mode == Ceil || (mode == Round && remainder * 2 >= divisor)) then quotient + 1
      else quotient
  }

  function ToSorobanI128(d: Decimal, target: int, mode: Rounding): Result<int, Error> {
    if target < 0 || target > MAX_SCALE then Failure(InternalError)
    else
      var scaled := Scaled(d, target, mode);
      if scaled > I128_MAX || scaled < I128_MIN then Failure(ValidationError) else Success(scaled)
  }

  // ----- ratios -----

  lemma RatioTimes(n: int, p: int)
    requires p > 0
    ensures Ratio(n, p) * p as real == n as real
  {
  }

  // Multiplying by a positive factor keeps the order.
  lemma RealMono(x: real, y: real, k: real)
    requires k > 0.0
    ensures x <= y <==> x * k <= y * k
    ensures x < y <==> x * k < y * k
  {
  }

  lemma RatioCompare(n: int, p: int, m: int, q: int)
    requires p > 0 && q > 0
    ensures Ratio(n, p) <= Ratio(m, q) <==> n * q <= m * p
    ensures Ratio(n, p) < Ratio(m, q) <==> n * q < m * p
  {
    RatioTimes(n, p);
    RatioTimes(m, q);
    var k := p as real * q as real;
    RealMono(Ratio(n, p), Ratio(m, q), k);
    assert Ratio(n, p) * k == (n * q) as real by {
      assert Ratio(n, p) * (p as real * q as real) == (Ratio(n, p) * p as real) * q as real;
    }
    assert Ratio(m, q) * k == (m * p) as real by {
      assert Ratio(m, q) * (p as real * q as real) == (Ratio(m, q) * q as real) * p as real;
    }
  }

  lemma RatioEqual(n: int, p: int, m: int, q: int)
    requires p > 0 && q > 0
    ensures Ratio(n, p) == Ratio(m, q) <==> n * q == m * p
  {
    RatioCompare(n, p, m, q);
    RatioCompare(m, q, n, p);
  }

  lemma RatioSum(n: int, m: int, p: int)
    requires p > 0
    ensures Ratio(n, p) + Ratio(m, p) == Ratio(n + m, p)
    ensures Ratio(n, p) - Ratio(m, p) == Ratio(n - m, p)
  {
  }

  lemma RatioProduct(n: int, p: int, m: int, q: int)
    requires p > 0 && q > 0
    ensures p * q > 0 && Ratio(n, p) * Ratio(m, q) == Ratio(n * m, p * q)
  {
    RatioTimes(n, p);
    RatioTimes(m, q);
    RatioTimes(n * m, p * q);
    var x, y := Ratio(n, p), Ratio(m, q);
    CancelProduct(x, y, p as real, q as real, n as real, m as real, Ratio(n * m, p * q));
  }

  lemma CancelProduct(x: real, y: real, p: real, q: real, n: real, m: real, z: real)
    requires p > 0.0 && q > 0.0 && x * p == n && y * q == m && z * (p * q) == n * m
    ensures x * y == z
  {
    assert (x * y) * (p * q) == (x * p) * (y * q);
    assert p * q > 0.0;
    RealMono(x * y, z, p * q);
    RealMono(z, x * y, p * q);
  }

  lemma RatioScaled(n: int, p: int, k: int)
    requires p > 0 && k > 0
    ensures p * k > 0 && Ratio(n * k, p * k) == Ratio(n, p)
  {
    assert p * k > 0;
    assert (n * k) * p == n * (p * k);
    RatioEqual(n * k, p * k, n, p);
  }

  /** Rescaling does not change the number. */
  lemma RescaledValue(d: Decimal, scale: nat)
    requires d.scale <= scale
    ensures Ratio(Rescaled(d, scale), Pow10(scale)) == Val(d)
  {
    Pow10Add(d.scale, scale - d.scale);
    RatioScaled(d.value, Pow10(d.scale), Pow10(scale - d.scale));
  }

  lemma AddOutcome(a: Decimal, b: Decimal)
    requires Valid(a) && Valid(b)
    ensures var common := Max(a.scale, b.scale);
            Add(a, b) == Success(Decimal(Rescaled(a, common) + Rescaled(b, common), common))
  {
    hide FromScaledBigInt;
    var common := Max(a.scale, b.scale);
    FromScaledIsExact(Rescaled(a, common) + Rescaled(b, common), common);
  }

  lemma SumValue(a: Decimal, b: Decimal, r: Decimal)
    requires a.scale <= r.scale && b.scale <= r.scale
    requires r.value == Rescaled(a, r.scale) + Rescaled(b, r.scale)
    ensures Val(r) == Val(a) + Val(b)
  {
    RescaledValue(a, r.scale);
    RescaledValue(b, r.scale);
    RatioSum(Rescaled(a, r.scale), Rescaled(b, r.scale), Pow10(r.scale));
  }

  /** Addition is exact, at the larger of the two scales. */
  lemma AddIsExact(a: Decimal, b: Decimal)
    requires Valid(a) && Valid(b)
    ensures Add(a, b).Success?
    ensures Val(Add(a, b).value) == Val(a) + Val(b) && Add(a, b).value.scale == Max(a.scale, b.scale)
  {
    AddOutcome(a, b);
    SumValue(a, b, Add(a, b).value);
  }

  lemma SubtractOutcome(a: Decimal, b: Decimal)
    requires Valid(a) && Valid(b)
    ensures var common := Max(a.scale, b.scale);
            var x, y := Rescaled(a, common), Rescaled(b, common);
            Subtract(a, b) == if x < y then Failure(ValidationError) else Success(Decimal(x - y, common))
  {
    hide FromScaledBigInt;
    var common := Max(a.scale, b.scale);
    FromScaledIsExact(Rescaled(a, common) as int - Rescaled(b, common), common);
  }

  /** Subtraction succeeds exactly when the result is not negative, and then it is exact. */
  lemma SubtractIsExactOrRefused(a: Decimal, b: Decimal)
    requires Valid(a) && Valid(b)
    ensures Subtract(a, b).Success? <==> Val(a) >= Val(b)
    ensures Subtract(a, b).Success? ==> Val(Subtract(a, b).value) == Val(a) - Val(b)
    ensures Subtract(a, b).Failure? ==> Subtract(a, b).error == ValidationError
  {
    SubtractOutcome(a, b);
    CompareRescaled(a, b);
    if Subtract(a, b).Success? {
      // a is the sum of b and the difference
      var common := Max(a.scale, b.scale);
      SumValue(b, Subtract(a, b).value, Decimal(Rescaled(a, common), common));
      RescaledValue(a, Max(a.scale, b.scale));
    }
  }

  lemma CompareRescaled(a: Decimal, b: Decimal)
    ensures var common := Max(a.scale, b.scale);
            && (Rescaled(a, common) < Rescaled(b, common) <==> Val(a) < Val(b))
            && (Rescaled(a, common) == Rescaled(b, common) <==> Val(a) == Val(b))
  {
    var common := Max(a.scale, b.scale);
    RescaledValue(a, common);
    RescaledValue(b, common);
    SameDenominator(Rescaled(a, common), Rescaled(b, common), Pow10(common));
  }

  lemma SameDenominator(x: int, y: int, p: int)
    requires p > 0
    ensures x < y <==> Ratio(x, p) < Ratio(y, p)
    ensures x == y <==> Ratio(x, p) == Ratio(y, p)
  {
    RatioCompare(x, p, y, p);
    RatioCompare(y, p, x, p);
    MulPositive(x, y, p);
    MulPositive(y, x, p);
  }

  lemma MulPositive(x: int, y: int, p: int)
    requires p > 0
    ensures x <= y <==> x * p <= y * p
    ensures x < y <==> x * p < y * p
  {
  }

  /** compareTo is the order of the rationals, whatever the scales. */
  lemma CompareIsRationalOrder(a: Decimal, b: Decimal)
    ensures CompareTo(a, b) == 0 <==> Val(a) == Val(b)
    ensures CompareTo(a, b) == 1 <==> Val(a) > Val(b)
    ensures CompareTo(a, b) == -1 <==> Val(a) < Val(b)
  {
    CompareRescaled(a, b);
  }

  // Cutting a ratio off at a coarser denominator takes its floor there.
  lemma FloorRatio(v: nat, k: nat, p: nat, q: nat)
    requires k > 0 && p > 0 && q == Quotient(v, k)
    ensures k * p > 0
    ensures Ratio(q, p) <= Ratio(v, k * p) < Ratio(q + 1, p)
  {
    assert k * p > 0;
    RatioCompare(q, p, v, k * p);
    RatioCompare(v, k * p, q + 1, p);
    MulPositive(q * k, v, p);
    MulPositive(v, q * k + k, p);
    assert (q * k) * p == q * (k * p);
    assert (q * k + k) * p == (q + 1) * (k * p);
  }

  ghost const ULP: real := Ratio(1, Pow10(MAX_SCALE))  // one unit of the 18th place

  lemma MultiplyOutcome(a: Decimal, b: Decimal)
    requires Valid(a) && Valid(b)
    ensures var value, scale: nat := a.value * b.value, a.scale + b.scale;
            Multiply(a, b) ==
              if scale <= MAX_SCALE then Success(Decimal(value, scale))
              else Success(Decimal(Quotient(value, Pow10(scale - MAX_SCALE)), MAX_SCALE))
  {
    hide FromScaledBigInt;
    var value, scale := a.value * b.value, a.scale + b.scale;
    if scale <= MAX_SCALE {
      FromScaledIsExact(value, scale);
    } else {
      FromScaledIsExact(Quotient(value, Pow10(scale - MAX_SCALE)), MAX_SCALE);
    }
  }

  lemma ProductValue(a: Decimal, b: Decimal)
    ensures Val(a) * Val(b) == Ratio(a.value * b.value, Pow10(a.scale + b.scale))
  {
    RatioProduct(a.value, Pow10(a.scale), b.value, Pow10(b.scale));
    Pow10Add(a.scale, b.scale);
  }

  lemma CutProduct(value: nat, excess: nat, q: nat)
    requires q == Quotient(value, Pow10(excess))
    ensures var r := Val(Decimal(q, MAX_SCALE));
            r <= Ratio(value, Pow10(excess + MAX_SCALE)) < r + ULP
  {
    Pow10Add(excess, MAX_SCALE);
    FloorRatio(value, Pow10(excess), Pow10(MAX_SCALE), q);
    RatioSum(q, 1, Pow10(MAX_SCALE));
  }

  /** The product is exact if it fits in 18 places, and is otherwise cut off there. */
  lemma MultiplyIsExactOrFloored(a: Decimal, b: Decimal)
    requires Valid(a) && Valid(b)
    ensures Multiply(a, b).Success?
    ensures a.scale + b.scale <= MAX_SCALE ==> Val(Multiply(a, b).value) == Val(a) * Val(b)
    ensures a.scale + b.scale > MAX_SCALE ==>
      var r := Multiply(a, b).value;
      r.scale == MAX_SCALE && Val(r) <= Val(a) * Val(b) < Val(r) + ULP
  {
    hide FromScaledBigInt;
    MultiplyOutcome(a, b);
    ProductValue(a, b);
    if a.scale + b.scale > MAX_SCALE {
      var excess := a.scale + b.scale - MAX_SCALE;
      CutProduct(a.value * b.value, excess, Quotient(a.value * b.value, Pow10(excess)));
    }
  }

  lemma DivideOutcome(a: Decimal, b: Decimal)
    requires Valid(a) && b.value > 0
    ensures Divide(a, b) ==
      Success(Decimal(Quotient(a.value * Pow10(MAX_SCALE + b.scale - a.scale), b.value), MAX_SCALE))
  {
    hide FromScaledBigInt;
    FromScaledIsExact(Quotient(a.value * Pow10(MAX_SCALE + b.scale - a.scale), b.value), MAX_SCALE);
  }

  lemma PositiveValue(d: Decimal)
    requires d.value > 0
    ensures Val(d) > 0.0
  {
    RatioCompare(0, 1, d.value, Pow10(d.scale));
  }

  /** Division by zero is refused; otherwise the quotient is cut off at 18 places. */
  lemma DivideIsFloored(a: Decimal, b: Decimal)
    requires Valid(a) && Valid(b)
    ensures b.value == 0 ==> Divide(a, b) == Failure(BadRequest)
    ensures b.value > 0 ==>
      && Val(b) > 0.0 && Divide(a, b).Success?
      && var r := Divide(a, b).value;
         r.scale == MAX_SCALE && Val(r) * Val(b) <= Val(a) < (Val(r) + ULP) * Val(b)
  {
    hide FromScaledBigInt, Val, Quotient;
    if b.value > 0 {
      DivideOutcome(a, b);
      PositiveValue(b);
      DividedValue(a, b, Quotient(a.value * Pow10(MAX_SCALE + b.scale - a.scale), b.value));
    }
  }

  lemma DividedValue(a: Decimal, b: Decimal, q: nat)
    requires Valid(a) && b.value > 0
    requires q * b.value <= a.value * Pow10(MAX_SCALE + b.scale - a.scale) < q * b.value + b.value
    ensures var r := Val(Decimal(q, MAX_SCALE)); r * Val(b) <= Val(a) < (r + ULP) * Val(b)
  {
    hide Val, Ratio;
    QuotientTimesDivisor(a, b, q);
    QuotientTimesDivisor(a, b, q + 1);
    NextUnit(q);
  }

  lemma NextUnit(q: nat)
    ensures Val(Decimal(q, MAX_SCALE)) == Ratio(q, Pow10(MAX_SCALE))
    ensures Val(Decimal(q, MAX_SCALE)) + ULP == Ratio(q + 1, Pow10(MAX_SCALE))
  {
    RatioSum(q, 1, Pow10(MAX_SCALE));
  }

  // q units of the 18th place, times b, against a: the comparison the integers make.
  lemma QuotientTimesDivisor(a: Decimal, b: Decimal, q: nat)
    requires Valid(a)
    ensures var e := MAX_SCALE + b.scale - a.scale; var x := Ratio(q, Pow10(MAX_SCALE)) * Val(b);
            && (x <= Val(a) <==> q * b.value <= a.value * Pow10(e))
            && (Val(a) < x <==> a.value * Pow10(e) < q * b.value)
  {
    hide Ratio, Pow10;
    var e := MAX_SCALE + b.scale - a.scale;
    SameExponent(MAX_SCALE, b.scale, e, a.scale);
    CommonFactor(q, Pow10(MAX_SCALE), b.value, Pow10(b.scale), a.value, Pow10(a.scale), Pow10(e));
  }

  lemma SameExponent(i: nat, j: nat, k: nat, l: nat)
    requires i + j == k + l
    ensures Pow10(i) * Pow10(j) == Pow10(k) * Pow10(l)
  {
    hide Pow10;
    Pow10Add(i, j);
    Pow10Add(k, l);
  }

  lemma CommonFactor(q: nat, p: nat, v: nat, pb: nat, w: nat, pa: nat, k: nat)
    requires p > 0 && pb > 0 && pa > 0 && p * pb == k * pa
    ensures var x := Ratio(q, p) * Ratio(v, pb);
            && (x <= Ratio(w, pa) <==> q * v <= w * k)
            && (Ratio(w, pa) < x <==> w * k < q * v)
  {
    RatioProduct(q, p, v, pb);
    RatioCompare(q * v, p * pb, w, pa);
    RatioCompare(w, pa, q * v, p * pb);
    CommonMultiple(q * v, w, k, pa);
  }

  lemma CommonMultiple(x: int, w: int, k: int, pa: int)
    requires pa > 0
    ensures x * pa <= w * (k * pa) <==> x <= w * k
    ensures w * (k * pa) < x * pa <==> w * k < x
  {
    assert w * (k * pa) == (w * k) * pa;
    MulPositive(x, w * k, pa);
    MulPositive(w * k, x, pa);
  }

  // ----- conversion to a fixed scale -----

  // The number in units of the target scale.
  ghost function InUnits(d: Decimal, target: nat): real {
    Val(d) * Pow10(target) as real
  }

  lemma WideningUnits(d: Decimal, target: nat)
    requires d.scale <= target
    ensures InUnits(d, target) == Rescaled(d, target) as real
  {
    RescaledValue(d, target);
    RatioTimes(Rescaled(d, target), Pow10(target));
  }

  lemma NarrowingUnits(d: Decimal, target: nat)
    requires d.scale > target
    ensures InUnits(d, target) == Ratio(d.value, Pow10(d.scale - target))
  {
    Pow10Add(d.scale - target, target);
    RatioOver(d.value, Pow10(d.scale - target), Pow10(target));
  }

  lemma RatioOver(n: int, k: int, t: int)
    requires k > 0 && t > 0
    ensures k * t > 0 && Ratio(n, k * t) * t as real == Ratio(n, k)
  {
    RatioScaled(n, k, t);
    RatioProduct(n, k * t, t, 1);
    RatioCompare(n * t, k * t, n, k);
  }

  /** Each rounding mode keeps its error bound; widening is exact. */
  lemma ScaledErrorBound(d: Decimal, target: nat, mode: Rounding)
    ensures RoundedTo(InUnits(d, target), Scaled(d, target, mode), mode)
    ensures d.scale <= target ==> InUnits(d, target) == Scaled(d, target, mode) as real
  {
    if d.scale <= target {
      WideningUnits(d, target);
    } else {
      var k := Pow10(d.scale - target);
      var q := Quotient(d.value, k);
      NarrowingUnits(d, target);
      QuotientBounds(d.value, k, q);
    }
  }

  lemma QuotientBounds(v: nat, k: nat, q: nat)
    requires k > 0 && q == Quotient(v, k)
    ensures q as real <= Ratio(v, k) < q as real + 1.0
    ensures v - q * k == 0 <==> Ratio(v, k) == q as real
    ensures (v - q * k) * 2 >= k <==> Ratio(v, k) >= q as real + 0.5
  {
    RatioCompare(q, 1, v, k);
    RatioCompare(v, k, q + 1, 1);
    RatioCompare(2 * q + 1, 2, v, k);
    assert Ratio(2 * q + 1, 2) == q as real + 0.5;
  }

  /** The conversion keeps the order of the numbers, across different scales. */
  lemma ScaledIsMonotone(a: Decimal, b: Decimal, target: nat, mode: Rounding)
    requires Val(a) <= Val(b)
    ensures Scaled(a, target, mode) <= Scaled(b, target, mode)
  {
    ScaledErrorBound(a, target, mode);
    ScaledErrorBound(b, target, mode);
    UnitsMonotone(a, b, target);
    SameRounding(InUnits(a, target), InUnits(b, target), Scaled(a, target, mode), Scaled(b, target, mode), mode);
  }

  lemma UnitsMonotone(a: Decimal, b: Decimal, target: nat)
    requires Val(a) <= Val(b)
    ensures InUnits(a, target) <= InUnits(b, target)
  {
    RealMono(Val(a), Val(b), Pow10(target) as real);
  }

  // r is x rounded in the given mode.
  ghost predicate RoundedTo(x: real, r: int, mode: Rounding) {
    match mode
    case Floor => r as real <= x < r as real + 1.0
    case Truncate => r as real <= x < r as real + 1.0
    case Ceil => r as real - 1.0 < x <= r as real
    case Round => r as real - 0.5 <= x < r as real + 0.5
  }

  lemma SameRounding(x: real, y: real, r: int, s: int, mode: Rounding)
    requires x <= y && RoundedTo(x, r, mode) && RoundedTo(y, s, mode)
    ensures r <= s
  {
  }

  /** The number, in units of the target scale, whose rounded form is above the largest i128. */
  ghost predicate TooLarge(x: real, mode: Rounding) {
    match mode
    case Floor => x >= 170141183460469231731687303715884105728.0
    case Truncate => x >= 170141183460469231731687303715884105728.0
    case Ceil => x > 170141183460469231731687303715884105727.0
    case Round => x >= 170141183460469231731687303715884105727.5
  }

  /**
   toSorobanI128 refuses a target scale out of range, and a number that is too large for
   the mode; otherwise it yields the number rounded in the mode. The lower limit never
   refuses anything.
   */
  lemma SorobanOutcome(d: Decimal, target: int, mode: Rounding)
    ensures target < 0 || target > 18 ==> ToSorobanI128(d, target, mode) == Failure(InternalError)
    ensures 0 <= target <= 18 ==>
      var r, x := ToSorobanI128(d, target, mode), InUnits(d, target);
      if TooLarge(x, mode) then r == Failure(ValidationError) else r.Success? && RoundedTo(x, r.value, mode)
  {
    if 0 <= target <= MAX_SCALE {
      hide InUnits, Scaled;
      ScaledErrorBound(d, target, mode);
      RoundedTooLarge(InUnits(d, target), Scaled(d, target, mode), mode);
    }
  }

  lemma RoundedTooLarge(x: real, r: int, mode: Rounding)
    requires RoundedTo(x, r, mode)
    ensures r > I128_MAX <==> TooLarge(x, mode)
  {
  }
}
