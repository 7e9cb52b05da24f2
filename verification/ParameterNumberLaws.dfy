/** The normal form of a JSON number is its exact value: two texts share a normal form exactly when
    they denote the same number, and the exponent tells exactly whether it is an integer
    (internal/domain/catalog_parameters.go:32-38, 56-66, 126-152). */
module ParameterNumberLaws {
  import opened Decimals
  import opened ParameterNumbers

  // ---------------------------------------------------------------- the form is canonical

  lemma {:induction false} TrimLeftDigits(s: string)
    requires IsDigits(s)
    ensures IsDigits(TrimLeft(s))
  {
    if s != "" && s[0] == '0' {
      TrimLeftDigits(s[1..]);
    }
  }

  lemma {:induction false} TrimRightDigits(s: string)
    requires IsDigits(s)
    ensures IsDigits(TrimRight(s))
    decreases |s|
  {
    if s != "" && s[|s| - 1] == '0' {
      TrimRightDigits(s[..|s| - 1]);
    }
  }

  lemma TrimmedIsProper(s: string)
    requires IsDigits(s) && TrimLeft(s) != ""
    ensures ProperDigits(TrimRight(TrimLeft(s)))
  {
    TrimLeftDigits(s);
    TrimRightDigits(TrimLeft(s));
    TrimRightKeepsFirst(TrimLeft(s));
    hide TrimLeft, TrimRight, IsDigits;
  }

  lemma AllAreDigits(l: Literal)
    requires WellFormed(l)
    ensures IsDigits(l.whole) && IsDigits(FractionDigits(l)) && IsDigits(AllDigits(l))
  {
  }

  lemma NormalIsCanonical(l: Literal)
    requires WellFormed(l)
    ensures Canonical(NormalForm(l))
  {
    AllAreDigits(l);
    var text := TrimLeft(AllDigits(l));
    if text != "" {
      TrimmedIsProper(AllDigits(l));
      hide TrimLeft, TrimRight, NormalForm, ProperDigits, WellFormed;
      Split("-", TrimRight(text));
    }
  }

  // ---------------------------------------------------------------- the form denotes the value

  lemma {:induction false} FractionNumber(s: string)
    requires IsDigits(s)
    ensures Times(Power(|s|), Fraction(s)) == Number(s) as real
  {
    if s != "" {
      var d, rest := [s[0]], s[1..];
      assert s == d + rest;
      assert d[..0] == "" && Number(d) == DigitValue(s[0]);
      NumberConcat(d, rest);
      FractionNumber(rest);
      assert Power(|s|) == 10 * Power(|rest|);
      TenthsCancel(Power(|rest|), Power(|s|), DigitValue(s[0]), Fraction(rest));
    }
  }

  lemma TenthsCancel(p: nat, q: nat, d: nat, x: real)
    requires q == 10 * p
    ensures Times(q, (d as real + x) / 10.0) == (d * p) as real + Times(p, x)
  {
    assert q as real == 10.0 * p as real;
    assert Times(q, (d as real + x) / 10.0) == p as real * (d as real + x);
    assert (d * p) as real == d as real * p as real;
  }

  /** The digits with the point taken out, times the power of ten the point stood for. */
  lemma MagnitudeOfDigits(l: Literal)
    requires WellFormed(l)
    ensures IsDigits(AllDigits(l))
    ensures Magnitude(l) == Times(Number(AllDigits(l)), Scale(ExponentValue(l) - |FractionDigits(l)|))
  {
    AllAreDigits(l);
    var w, f, e := l.whole, FractionDigits(l), ExponentValue(l);
    hide WellFormed, ExponentValue, FractionDigits, IsDigits;
    Unpointed(w, f, e);
  }

  lemma Unpointed(w: string, f: string, e: int)
    requires IsDigits(w) && IsDigits(f) && IsDigits(w + f)
    ensures Product(Number(w) as real + Fraction(f), Scale(e)) == Times(Number(w + f), Scale(e - |f|))
  {
    NumberConcat(w, f);
    FractionNumber(f);
    ScaleShift(e - |f|, |f|);
    hide Number, Fraction, Scale, Power, IsDigits, Times, Product;
    Distribute(Number(w), Fraction(f), Power(|f|), Scale(e - |f|), Number(f), Number(w + f));
  }

  lemma Distribute(w: nat, x: real, p: nat, y: real, n: nat, total: nat)
    requires Times(p, x) == n as real && total == w * p + n
    ensures Product(w as real + x, Times(p, y)) == Times(total, y)
  {
    assert (w * p) as real == w as real * p as real;
    assert (w as real + x) * (p as real * y) == (w as real * p as real + p as real * x) * y;
  }

  lemma TimesTimes(n: nat, p: nat, m: nat, y: real)
    requires m == n * p
    ensures Times(n, Times(p, y)) == Times(m, y)
  {
    assert m as real == n as real * p as real;
    assert n as real * (p as real * y) == (n as real * p as real) * y;
  }

  lemma TrimmedMagnitude(s: string, e: int)
    requires IsDigits(s)
    ensures
      var text := TrimLeft(s);
      var digits := TrimRight(text);
      && IsDigits(digits) && IsDigits(text)
      && Times(Number(s), Scale(e)) == Times(Number(digits), Scale(e + (|text| - |digits|)))
  {
    var text := TrimLeft(s);
    var digits := TrimRight(text);
    TrimLeftNumber(s);
    TrimRightNumber(text);
    var k := |text| - |digits|;
    ScaleShift(e, k);
    hide TrimLeft, TrimRight, Number, Scale, Power, Times, IsDigits;
    TimesTimes(Number(digits), Power(k), Number(s), Scale(e));
  }

  lemma SignedDigits(negative: bool, digits: string)
    requires ProperDigits(digits)
    ensures
      var s := WithSign(negative, digits);
      && Canonical(Normal(s, 0))
      && Signed(s) == if negative then 0 - Number(digits) else Number(digits)
  {
    Split("-", digits);
    hide Number;
    assert IsDigit(digits[0]);
  }

  lemma ProductOfSigned(n: nat, x: real)
    ensures Product(n as real, x) == Times(n, x) && Product((0 - n) as real, x) == -Times(n, x)
  {
  }

  lemma SignedDenotes(negative: bool, digits: string, e: int)
    requires ProperDigits(digits)
    ensures
      var n := Normal(WithSign(negative, digits), e);
      Canonical(n) && Denotes(n) == if negative then -Times(Number(digits), Scale(e))
        else Times(Number(digits), Scale(e))
  {
    SignedDigits(negative, digits);
    ProductOfSigned(Number(digits), Scale(e));
    hide ProperDigits, Scale, Signed, Number, WithSign, IsDigits, Times, Product;
    assert Canonical(Normal(WithSign(negative, digits), e));
  }

  lemma NormalDenotes(l: Literal)
    requires WellFormed(l) && IsDigits(AllDigits(l)) && TrimLeft(AllDigits(l)) != ""
    ensures
      var text := TrimLeft(AllDigits(l));
      var digits := TrimRight(text);
      var e := ExponentValue(l) + (|text| - |digits| - |FractionDigits(l)|);
      && ProperDigits(digits) && Canonical(NormalForm(l))
      && Denotes(NormalForm(l)) == if l.negative then -Times(Number(digits), Scale(e))
        else Times(Number(digits), Scale(e))
  {
    hide TrimLeft, TrimRight, Number, Scale, Times, WellFormed, Denotes, Canonical, ProperDigits,
      ExponentValue, AllDigits, FractionDigits, WithSign;
    TrimmedIsProper(AllDigits(l));
    var text := TrimLeft(AllDigits(l));
    var digits := TrimRight(text);
    SignedDenotes(l.negative, digits, ExponentValue(l) + (|text| - |digits| - |FractionDigits(l)|));
  }

  /** The normal form denotes exactly the number that was written. */
  lemma NormalDenotesValue(l: Literal)
    requires WellFormed(l)
    ensures Canonical(NormalForm(l)) && Denotes(NormalForm(l)) == Value(l)
  {
    hide TrimLeft, TrimRight, Number, Scale, Times, WellFormed, NormalForm, Denotes, Canonical, ProperDigits,
      ExponentValue, Fraction, AllDigits, FractionDigits, Magnitude;
    NormalIsCanonical(l);
    MagnitudeOfDigits(l);
    var s := AllDigits(l);
    var e := ExponentValue(l) - |FractionDigits(l)|;
    if TrimLeft(s) == "" {
      NormalFormIs(l);
      TrimLeftNumber(s);
      ZeroDenotes();
      TimesZero(Scale(e));
      assert Magnitude(l) == 0.0;
    } else {
      TrimmedMagnitude(s, e);
      NormalDenotes(l);
      var text := TrimLeft(s);
      assert e + (|text| - |TrimRight(text)|) == ExponentValue(l) + (|text| - |TrimRight(text)| - |FractionDigits(l)|);
    }
  }

  lemma TimesZero(x: real)
    ensures Times(0, x) == 0.0
  {
  }

  lemma ZeroDenotes()
    ensures Canonical(Normal("0", 0)) && Denotes(Normal("0", 0)) == 0.0
  {
    assert "0"[..0] == "";
    assert Number("0") == 0;
  }

  // ---------------------------------------------------------------- one value, one form

  lemma ProperIsPositive(s: string)
    requires ProperDigits(s)
    ensures Number(s) >= 1 && Number(s) % 10 != 0
  {
    NumberPositive(s);
    assert Number(s) == 10 * Number(s[..|s| - 1]) + DigitValue(s[|s| - 1]);
  }

  lemma LessScales(a: nat, b: nat, x: real)
    requires x > 0.0 && a < b
    ensures Times(a, x) < Times(b, x)
  {
    assert (b as real - a as real) * x > 0.0;
  }

  lemma CancelScale(a: nat, b: nat, x: real)
    requires x > 0.0 && Times(a, x) == Times(b, x)
    ensures a == b
  {
    hide Times;
    if a < b {
      LessScales(a, b, x);
    } else if b < a {
      LessScales(b, a, x);
    }
  }

  lemma ShiftedNumber(a: nat, b: nat, d: int, k: nat)
    requires Times(a, Scale(d)) == Times(b, Scale(d + k))
    ensures a == b * Power(k)
  {
    hide Power, Times, Scale;
    ScaleShift(d, k);
    TimesTimes(b, Power(k), b * Power(k), Scale(d));
    CancelScale(a, b * Power(k), Scale(d));
  }

  lemma MultipleEndsInZero(a: nat, b: nat, k: nat)
    requires k > 0 && a == b * Power(k)
    ensures a % 10 == 0
  {
    var p := Power(k - 1);
    assert Power(k) == 10 * p;
    hide Power;
    MoveTen(b, p);
    assert a == 10 * (b * p);
  }

  lemma ProperFormIsUnique(a: string, b: string, d: int, e: int)
    requires ProperDigits(a) && ProperDigits(b) && d <= e
    requires Times(Number(a), Scale(d)) == Times(Number(b), Scale(e))
    ensures a == b && d == e
  {
    ProperIsPositive(a);
    assert Power(0) == 1;
    hide Power, Scale, Times, Number;
    ShiftedNumber(Number(a), Number(b), d, e - d);
    if e > d {
      MultipleEndsInZero(Number(a), Number(b), e - d);
    } else {
      NumberInjective(a, b);
    }
  }

  function Negative(n: Normal): bool
    requires Canonical(n)
  {
    n.digits[0] == '-'
  }

  function Unsigned(n: Normal): string
    requires Canonical(n)
  {
    if Negative(n) then n.digits[1..] else n.digits
  }

  lemma CanonicalParts(n: Normal)
    requires Canonical(n) && n.digits != "0"
    ensures ProperDigits(Unsigned(n)) && n.digits == WithSign(Negative(n), Unsigned(n))
    ensures Denotes(n) == if Negative(n) then -Times(Number(Unsigned(n)), Scale(n.exponent))
      else Times(Number(Unsigned(n)), Scale(n.exponent))
    ensures if Negative(n) then Denotes(n) < 0.0 else Denotes(n) > 0.0
  {
    var digits := Unsigned(n);
    CanonicalShape(n);
    SignedDenotes(Negative(n), digits, n.exponent);
    ProperIsPositive(digits);
    PositiveTimes(Number(digits), Scale(n.exponent));
  }

  lemma CanonicalShape(n: Normal)
    requires Canonical(n) && n.digits != "0"
    ensures ProperDigits(Unsigned(n)) && n.digits == WithSign(Negative(n), Unsigned(n))
  {
    if n.digits[0] == '-' {
      assert n.digits == "-" + n.digits[1..];
      NotADigit();
      assert !ProperDigits(n.digits);
    }
  }

  lemma PositiveTimes(n: nat, x: real)
    requires n >= 1 && x > 0.0
    ensures Times(n, x) > 0.0
  {
  }

  lemma ZeroIsZero(n: Normal)
    requires Canonical(n)
    ensures n.digits == "0" <==> n == Normal("0", 0)
    ensures n.digits == "0" <==> Denotes(n) == 0.0
  {
    if n.digits == "0" {
      ZeroDenotes();
    } else {
      CanonicalParts(n);
    }
  }

  /** Two canonical forms denote the same number only when they are the same form. */
  lemma CanonicalIsUnique(m: Normal, n: Normal)
    requires Canonical(m) && Canonical(n) && Denotes(m) == Denotes(n)
    ensures m == n
  {
    hide Canonical, Denotes, ProperDigits, Number, Scale, Times, Negative, Unsigned;
    ZeroIsZero(m);
    ZeroIsZero(n);
    if m.digits != "0" && n.digits != "0" {
      CanonicalParts(m);
      CanonicalParts(n);
      if m.exponent <= n.exponent {
        ProperFormIsUnique(Unsigned(m), Unsigned(n), m.exponent, n.exponent);
      } else {
        ProperFormIsUnique(Unsigned(n), Unsigned(m), n.exponent, m.exponent);
      }
    }
  }

  /** Two literals normalize alike exactly when they denote the same number. */
  lemma SameFormIffSameValue(k: Literal, l: Literal)
    requires WellFormed(k) && WellFormed(l)
    ensures NormalForm(k) == NormalForm(l) <==> Value(k) == Value(l)
  {
    hide Canonical, Denotes, NormalForm, Value;
    NormalDenotesValue(k);
    NormalDenotesValue(l);
    if Value(k) == Value(l) {
      CanonicalIsUnique(NormalForm(k), NormalForm(l));
    }
  }

  // ---------------------------------------------------------------- texts

  predicate ValidNumber(text: string)
  {
    Parse(text).Some?
  }

  /** A text is accepted exactly when the grammar produces it. */
  lemma AcceptedExactlyByTheGrammar(text: string)
    ensures ValidNumber(text) <==> exists l: Literal :: WellFormed(l) && Render(l) == text
    ensures ValidNumber(text) <==> Normalized(text).Some?
  {
    ParseIsSound(text);
    hide Parse, WellFormed, Render;
    forall l: Literal | WellFormed(l) && Render(l) == text
      ensures ValidNumber(text)
    {
      ParseReadsBack(l);
    }
    NormalizedIs(text);
  }

  /** The number a valid text denotes. */
  function ValueOf(text: string): real
    requires ValidNumber(text)
  {
    ParseIsSound(text);
    Value(Parse(text).value)
  }

  /** What equality of two parameter numbers decides: both are numbers, and the same one. */
  lemma SameTextsIffSameNumber(a: string, b: string)
    ensures Normalized(a).Some? && Normalized(a) == Normalized(b)
      <==> ValidNumber(a) && ValidNumber(b) && ValueOf(a) == ValueOf(b)
  {
    NormalizedIs(a);
    NormalizedIs(b);
    hide Parse, WellFormed, Render, NormalForm, Normalized, Value;
    if ValidNumber(a) && ValidNumber(b) {
      SameFormIffSameValue(Parse(a).value, Parse(b).value);
    }
  }

  // ---------------------------------------------------------------- integers

  predicate Integral(x: real)
  {
    x == x.Floor as real
  }

  lemma TimesIsIntegral(n: nat, p: nat)
    ensures Times(n, p as real) == (n * p) as real
  {
  }

  lemma PositiveScaleIsIntegral(n: nat, e: int)
    requires e >= 0
    ensures Integral(Times(n, Scale(e)))
  {
    TimesIsIntegral(n, Power(e));
  }

  lemma IntegralEndsInZero(n: nat, e: int)
    requires e < 0 && Integral(Times(n, Scale(e)))
    ensures n % 10 == 0
  {
    var x := Times(n, Scale(e));
    var i := x.Floor;
    Cancel(n, Power(-e));
    assert Product(x, Power(-e) as real) == n as real;
    hide Times, Scale, Power;
    assert x == i as real;
    WholeProduct(i, Power(-e), n);
    assert i >= 0 by { PositiveFactor(i, Power(-e), n); }
    MultipleEndsInZero(n, i, -e);
  }

  lemma WholeProduct(i: int, p: nat, n: nat)
    requires Product(i as real, p as real) == n as real
    ensures n == i * p
  {
    assert (i * p) as real == i as real * p as real;
  }

  lemma PositiveFactor(i: int, p: nat, n: nat)
    requires p >= 1 && n == i * p
    ensures i >= 0
  {
    if i < 0 {
      NegativeFactor(i, p);
    }
  }

  lemma NegativeFactor(i: int, p: nat)
    requires p >= 1 && i < 0
    ensures i * p < 0
  {
  }

  lemma NegativeScaleIsNot(n: nat, e: int)
    requires e < 0 && n % 10 != 0
    ensures !Integral(Times(n, Scale(e)))
  {
    hide Integral, Times, Scale;
    if Integral(Times(n, Scale(e))) {
      IntegralEndsInZero(n, e);
    }
  }

  lemma Cancel(n: nat, p: nat)
    requires p >= 1
    ensures Product(Times(n, 1.0 / p as real), p as real) == n as real
  {
    var q := 1.0 / p as real;
    assert q * p as real == 1.0;
    assert (n as real * q) * p as real == n as real * (q * p as real);
  }

  lemma NegatedIntegral(x: real)
    ensures Integral(-x) <==> Integral(x)
  {
    if Integral(x) {
      assert -x == (-x.Floor) as real;
    }
    if Integral(-x) {
      assert x == (-((-x).Floor)) as real;
    }
  }

  /** The exponent test of MatchesParameterType decides exactly whether the number is an integer. */
  lemma ExponentDecidesInteger(l: Literal)
    requires WellFormed(l)
    ensures NormalForm(l).exponent >= 0 <==> Integral(Value(l))
  {
    NormalDenotesValue(l);
    var n := NormalForm(l);
    hide NormalForm, Value, Denotes, Canonical, WellFormed;
    ZeroIsZero(n);
    if n.digits != "0" {
      CanonicalParts(n);
      var digits := Unsigned(n);
      ProperIsPositive(digits);
      hide Number, Scale, Times, Integral, ProperDigits, Unsigned, Negative;
      NegatedIntegral(Times(Number(digits), Scale(n.exponent)));
      if n.exponent >= 0 {
        PositiveScaleIsIntegral(Number(digits), n.exponent);
      } else {
        NegativeScaleIsNot(Number(digits), n.exponent);
      }
    }
  }
}
