/** Decimal digits and powers of ten, exactly. */
module Decimals {

  predicate IsDigit(c: char)
  {
    '0' <= c <= '9'
  }

  predicate IsDigits(s: string)
  {
    forall i | 0 <= i < |s| :: IsDigit(s[i])
  }

  function DigitValue(c: char): (d: nat)
    requires IsDigit(c)
    ensures d < 10 && (d == 0 <==> c == '0')
  {
    c as int - '0' as int
  }

  /** The number a string of decimal digits denotes. */
  function Number(s: string): nat
    requires IsDigits(s)
    decreases |s|
  {
    if s == "" then 0 else 10 * Number(s[..|s| - 1]) + DigitValue(s[|s| - 1])
  }

  function Power(n: nat): (p: nat)
    ensures p >= 1
  {
    if n == 0 then 1 else 10 * Power(n - 1)
  }

  /** Ten to any integer power, as a real. */
  function Scale(e: int): (r: real)
    ensures r > 0.0
  {
    if e >= 0 then Power(e) as real else 1.0 / Power(-e) as real
  }

  lemma MoveTen(a: nat, b: nat)
    ensures 10 * (a * b) == a * (10 * b)
  {
  }

  lemma ScaleStep(e: int)
    ensures Scale(e + 1) == 10.0 * Scale(e)
  {
    if e >= 0 {
      assert Power(e + 1) == 10 * Power(e);
    } else if e == -1 {
      assert Power(1) == 10 * Power(0);
    } else {
      var p := Power(-e - 1);
      assert Power(-e) == 10 * p;
      TenTimesInverse(p as real);
    }
  }

  lemma TenTimesInverse(p: real)
    requires p > 0.0
    ensures 1.0 / p == 10.0 * (1.0 / (10.0 * p))
  {
    var q := 1.0 / (10.0 * p);
    assert q * (10.0 * p) == 1.0;
    assert (10.0 * q) * p == 1.0;
  }

  /** n times x; products of variables are only multiplied out where a lemma needs it. */
  function Times(n: nat, x: real): real
  {
    n as real * x
  }

  function Product(x: real, y: real): real
  {
    x * y
  }

  lemma {:induction false} ScaleShift(e: int, n: nat)
    ensures Scale(e + n) == Times(Power(n), Scale(e))
    decreases n
  {
    assert if n == 0 then Power(n) == 1 else Power(n) == 10 * Power(n - 1);
    if n == 0 {
      TimesOne(Scale(e));
    } else {
      hide Power, Scale, Times;
      ScaleShift(e, n - 1);
      ScaleStep(e + (n - 1));
      TimesTen(Power(n - 1), Power(n), Scale(e));
    }
  }

  lemma TimesOne(x: real)
    ensures Times(1, x) == x
  {
  }

  lemma TimesTen(p: nat, q: nat, x: real)
    requires q == 10 * p
    ensures 10.0 * Times(p, x) == Times(q, x)
  {
    assert q as real == 10.0 * p as real;
  }

  lemma {:induction false} NumberConcat(a: string, b: string)
    requires IsDigits(a) && IsDigits(b)
    ensures IsDigits(a + b) && Number(a + b) == Number(a) * Power(|b|) + Number(b)
    decreases |b|
  {
    if b == "" {
      assert a + b == a;
    } else {
      var rest := b[..|b| - 1];
      NumberConcat(a, rest);
      assert (a + b)[..|a + b| - 1] == a + rest;
      assert Power(|b|) == 10 * Power(|rest|);
      MoveTen(Number(a), Power(|rest|));
    }
  }

  lemma {:induction false} NumberPositive(s: string)
    requires IsDigits(s) && s != "" && s[0] != '0'
    ensures Number(s) >= 1 && (|s| >= 2 ==> Number(s) >= 10)
    decreases |s|
  {
    if |s| >= 2 {
      assert s[..|s| - 1][0] == s[0];
      NumberPositive(s[..|s| - 1]);
    }
  }

  /** Without leading zeros, a number has one digit string. */
  lemma {:induction false} NumberInjective(s: string, t: string)
    requires IsDigits(s) && IsDigits(t) && s != "" && t != "" && s[0] != '0' && t[0] != '0'
    requires Number(s) == Number(t)
    ensures s == t
    decreases |s|
  {
    NumberPositive(s);
    NumberPositive(t);
    var a, b := s[..|s| - 1], t[..|t| - 1];
    assert DigitValue(s[|s| - 1]) == Number(s) % 10 == DigitValue(t[|t| - 1]);
    assert s[|s| - 1] == t[|t| - 1];
    if |s| == 1 || |t| == 1 {
      assert Number("") == 0;
      assert |s| == 1 ==> a == "";
      assert |t| == 1 ==> b == "";
    } else {
      assert a[0] == s[0] && b[0] == t[0];
      NumberInjective(a, b);
      assert s == a + [s[|s| - 1]] && t == b + [t[|t| - 1]];
    }
  }

  function TrimLeft(s: string): (r: string)
    ensures |r| <= |s|
    ensures r != "" ==> r[0] != '0'
  {
    if s != "" && s[0] == '0' then TrimLeft(s[1..]) else s
  }

  function TrimRight(s: string): (r: string)
    ensures |r| <= |s|
    ensures r != "" ==> r[|r| - 1] != '0'
    decreases |s|
  {
    if s != "" && s[|s| - 1] == '0' then TrimRight(s[..|s| - 1]) else s
  }

  lemma {:induction false} TrimLeftNumber(s: string)
    requires IsDigits(s)
    ensures IsDigits(TrimLeft(s)) && Number(TrimLeft(s)) == Number(s)
    ensures TrimLeft(s) == "" <==> Number(s) == 0
  {
    var r := TrimLeft(s);
    if s != "" && s[0] == '0' {
      TrimLeftNumber(s[1..]);
      assert s == ['0'] + s[1..];
      assert ['0'][..0] == "";
      assert Number(['0']) == 0;
      NumberConcat(['0'], s[1..]);
    } else if s != "" {
      NumberPositive(s);
    }
  }

  lemma {:induction false} TrimRightNumber(s: string)
    requires IsDigits(s)
    ensures IsDigits(TrimRight(s)) && Number(s) == Number(TrimRight(s)) * Power(|s| - |TrimRight(s)|)
    decreases |s|
  {
    if s != "" && s[|s| - 1] == '0' {
      var rest := s[..|s| - 1];
      TrimRightNumber(rest);
      var n := |rest| - |TrimRight(rest)|;
      assert Number(s) == 10 * Number(rest);
      MoveTen(Number(TrimRight(rest)), Power(n));
      assert Power(n + 1) == 10 * Power(n);
    } else {
      assert Power(0) == 1;
    }
  }

  lemma TrimRightKeepsFirst(s: string)
    requires s != "" && s[0] != '0'
    ensures TrimRight(s) != "" && TrimRight(s)[0] == s[0]
    decreases |s|
  {
    if s[|s| - 1] == '0' {
      TrimRightKeepsFirst(s[..|s| - 1]);
    }
  }
}
