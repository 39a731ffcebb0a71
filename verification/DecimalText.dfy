/** Decimal notation of natural numbers: what BigInt parsing and printing do. */
module DecimalText {
  import opened Arithmetic
  import opened Sequences

  function Pow10(n: nat): (p: nat)
    ensures p > 0
  {
    if n == 0 then 1 else 10 * Pow10(n - 1)
  }

  lemma {:induction false} Pow10Add(a: nat, b: nat)
    ensures Pow10(a + b) == Pow10(a) * Pow10(b)
    decreases a
  {
    if a > 0 {
      Pow10Add(a - 1, b);
      MulAssociative(10, Pow10(a - 1), Pow10(b));
    }
  }

  predicate IsDigit(c: char) {
    '0' <= c <= '9'
  }

  predicate AllDigits(s: string) {
    forall i :: 0 <= i < |s| ==> IsDigit(s[i])
  }

  function DigitValue(c: char): (d: nat)
    ensures IsDigit(c) ==> d < 10
  {
    if IsDigit(c) then c as int - '0' as int else 0
  }

  function DigitChar(d: nat): (c: char)
    requires d < 10
    ensures IsDigit(c) && DigitValue(c) == d
  {
    ('0' as int + d) as char
  }

  /** The ten digits and their values. */
  lemma DigitsAre()
    ensures DigitValue('0') == 0 && DigitValue('1') == 1 && DigitValue('2') == 2 && DigitValue('3') == 3
    ensures DigitValue('4') == 4 && DigitValue('5') == 5 && DigitValue('6') == 6 && DigitValue('7') == 7
    ensures DigitValue('8') == 8 && DigitValue('9') == 9
    ensures forall d: nat :: d < 10 ==> DigitChar(d) == "0123456789"[d]
    ensures forall c: char :: IsDigit(c) <==> c in "0123456789"
  {
  }

  // BigInt of a string of digits; the empty string is zero.
  function ValueOf(s: string): nat {
    if s == [] then 0 else 10 * ValueOf(s[..|s| - 1]) + DigitValue(s[|s| - 1])
  }

  // toString of a natural number
  function Digits(n: nat): (s: string)
    ensures |s| >= 1 && AllDigits(s)
  {
    if n < 10 then [DigitChar(n)] else Digits(n / 10) + [DigitChar(n % 10)]
  }

  // No leading zero, except in "0" itself.
  predicate Canonical(s: string) {
    s != [] && (|s| == 1 || s[0] != '0')
  }

  lemma {:induction false} ValueOfDigits(n: nat)
    ensures ValueOf(Digits(n)) == n
    ensures Canonical(Digits(n))
    ensures n > 0 ==> Digits(n)[0] != '0'
  {
    if n < 10 {
      assert [DigitChar(n)][..0] == [];
    } else {
      ValueOfDigits(n / 10);
      var s := Digits(n / 10);
      assert (s + [DigitChar(n % 10)])[..|s|] == s;
    }
  }

  lemma {:induction false} DigitsOfValue(s: string)
    requires AllDigits(s) && Canonical(s)
    ensures Digits(ValueOf(s)) == s
    ensures |s| > 1 ==> ValueOf(s) >= 10
  {
    var n := |s| - 1;
    var d := DigitValue(s[n]);
    assert DigitChar(d) == s[n];
    if n == 0 {
      assert s == [s[0]] && s[..0] == [];
    } else {
      DigitsOfValue(s[..n]);
      CanonicalIsPositive(s[..n]);
      DigitsStep(ValueOf(s[..n]), d);
      assert s == s[..n] + [s[n]];
    }
  }

  lemma DigitsStep(q: nat, d: nat)
    requires q > 0 && d < 10
    ensures Digits(10 * q + d) == Digits(q) + [DigitChar(d)]
  {
    var n := 10 * q + d;
    assert n / 10 == q && n % 10 == d;
  }

  lemma {:induction false} CanonicalIsPositive(s: string)
    requires AllDigits(s) && s != [] && s[0] != '0'
    ensures ValueOf(s) > 0
  {
    var n := |s| - 1;
    if n == 0 {
      assert s[..0] == [];
    } else {
      CanonicalIsPositive(s[..n]);
    }
  }

  lemma ValueOfSnoc(a: string, c: char)
    ensures ValueOf(a + [c]) == 10 * ValueOf(a) + DigitValue(c)
  {
    assert (a + [c])[..|a|] == a;
  }

  lemma ValueOfOne(c: char)
    ensures ValueOf([c]) == DigitValue(c)
  {
    assert [c][..0] == [];
  }

  lemma {:induction false} ValueOfConcat(a: string, b: string)
    ensures ValueOf(a + b) == ValueOf(a) * Pow10(|b|) + ValueOf(b)
  {
    if b == [] {
      assert a + b == a;
    } else {
      var init, c := b[..|b| - 1], b[|b| - 1];
      assert b == init + [c];
      Associative(a, init, [c]);
      ValueOfConcat(a, init);
      ValueOfSnoc(a + init, c);
      ShiftDigit(ValueOf(a), Pow10(|init|), ValueOf(init), DigitValue(c));
    }
  }

  lemma ShiftDigit(v: int, p: int, w: int, d: int)
    ensures 10 * (v * p + w) + d == v * (10 * p) + (10 * w + d)
  {
  }

  function Zeros(n: nat): (s: string)
    ensures |s| == n && AllDigits(s)
  {
    if n == 0 then [] else Zeros(n - 1) + ['0']
  }

  lemma {:induction false} ValueOfZeros(n: nat)
    ensures ValueOf(Zeros(n)) == 0
  {
    if n > 0 {
      ValueOfZeros(n - 1);
      ValueOfSnoc(Zeros(n - 1), '0');
    }
  }

  function PadStart(s: string, width: nat): string {
    if |s| >= width then s else Zeros(width - |s|) + s
  }

  lemma {:induction false} ValueBound(s: string)
    requires AllDigits(s)
    ensures ValueOf(s) < Pow10(|s|)
  {
    if s != [] {
      ValueBound(s[..|s| - 1]);
    }
  }

  lemma {:induction false} ZerosFront(n: nat)
    requires n > 0
    ensures Zeros(n) == ['0'] + Zeros(n - 1)
  {
    if n > 1 {
      ZerosFront(n - 1);
    }
  }

  lemma LeadingZero(s: string)
    ensures ValueOf(['0'] + s) == ValueOf(s)
  {
    ValueOfConcat(['0'], s);
    ValueOfOne('0');
  }

  // A number below 10^width prints in at most `width` digits.
  lemma {:induction false} DigitsWidth(n: nat, width: nat)
    requires n < Pow10(width) && width >= 1
    ensures |Digits(n)| <= width
    decreases width
  {
    if n >= 10 {
      assert width > 1 by { assert Pow10(0) == 1; }
      DigitsWidth(n / 10, width - 1);
    }
  }

  // Padding gives back every string of digits from its value and its length.
  lemma {:induction false} PadOfValue(s: string)
    requires AllDigits(s) && s != []
    ensures PadStart(Digits(ValueOf(s)), |s|) == s
  {
    if Canonical(s) {
      DigitsOfValue(s);
    } else {
      var rest := s[1..];
      assert s == ['0'] + rest;
      LeadingZero(rest);
      PadOfValue(rest);
      ValueBound(rest);
      DigitsWidth(ValueOf(rest), |rest|);
      var k := |rest| - |Digits(ValueOf(rest))|;
      ZerosFront(k + 1);
      Associative(['0'], Zeros(k), Digits(ValueOf(rest)));
    }
  }

  lemma ZerosThen(k: nat, s: string)
    requires AllDigits(s)
    ensures AllDigits(Zeros(k) + s) && ValueOf(Zeros(k) + s) == ValueOf(s)
    decreases k
  {
    if k == 0 {
      assert Zeros(0) + s == s;
    } else {
      ZerosFront(k);
      Associative(['0'], Zeros(k - 1), s);
      ZerosThen(k - 1, s);
      LeadingZero(Zeros(k - 1) + s);
    }
  }

  lemma PadStartValue(n: nat, width: nat)
    requires n < Pow10(width) && width >= 1
    ensures var s := PadStart(Digits(n), width);
            AllDigits(s) && |s| == width && ValueOf(s) == n
  {
    DigitsWidth(n, width);
    ValueOfDigits(n);
    ZerosThen(width - |Digits(n)|, Digits(n));
  }
}
