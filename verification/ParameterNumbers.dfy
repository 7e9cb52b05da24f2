/** JSON numbers compared exactly (internal/domain/catalog_parameters.go:15, 126-152): the
    grammar of section 6 of RFC 8259, the value a text denotes, and its normal form. */
module ParameterNumbers {
  import opened JobPlan
  import opened Decimals

  // ---------------------------------------------------------------- the grammar

  datatype Exponent = Exponent(marker: char, sign: string, digits: string)

  datatype Literal = Literal(negative: bool, whole: string, fraction: Option<string>, exponent: Option<Exponent>)

  predicate WellFormed(l: Literal)
  {
    && l.whole != "" && IsDigits(l.whole) && (|l.whole| > 1 ==> l.whole[0] != '0')
    && (l.fraction.Some? ==> l.fraction.value != "" && IsDigits(l.fraction.value))
    && (l.exponent.Some? ==>
      && (l.exponent.value.marker == 'e' || l.exponent.value.marker == 'E')
      && (l.exponent.value.sign == "" || l.exponent.value.sign == "+" || l.exponent.value.sign == "-")
      && l.exponent.value.digits != "" && IsDigits(l.exponent.value.digits))
  }

  function Sign(l: Literal): string { if l.negative then "-" else "" }

  function Dot(l: Literal): string { if l.fraction.Some? then "." + l.fraction.value else "" }

  function Tail(l: Literal): string
  {
    if l.exponent.Some? then [l.exponent.value.marker] + l.exponent.value.sign + l.exponent.value.digits else ""
  }

  function Render(l: Literal): string
  {
    Sign(l) + l.whole + Dot(l) + Tail(l)
  }

  function DigitRun(s: string): (n: nat)
    ensures n <= |s| && IsDigits(s[..n]) && (n < |s| ==> !IsDigit(s[n]))
  {
    if s == "" || !IsDigit(s[0]) then 0
    else
      assert forall i | 0 <= i < DigitRun(s[1..]) :: s[1..][i] == s[i + 1];
      1 + DigitRun(s[1..])
  }

  function ParseExponent(s: string): (r: Option<Exponent>)
    ensures r.Some? ==> s == [r.value.marker] + r.value.sign + r.value.digits
  {
    if s == "" || (s[0] != 'e' && s[0] != 'E') then None
    else
      var signed := |s| > 1 && (s[1] == '+' || s[1] == '-');
      var sign, digits := if signed then s[1..2] else "", if signed then s[2..] else s[1..];
      if digits != "" && IsDigits(digits) then Some(Exponent(s[0], sign, digits)) else None
  }

  function ParseRest(negative: bool, whole: string, fraction: Option<string>, s: string): Option<Literal>
  {
    if s == "" then Some(Literal(negative, whole, fraction, None))
    else
      var e := ParseExponent(s);
      if e.None? then None else Some(Literal(negative, whole, fraction, e))
  }

  function ParseFraction(negative: bool, whole: string, s: string): Option<Literal>
  {
    if s != "" && s[0] == '.' then
      var m := DigitRun(s[1..]);
      if m == 0 then None else ParseRest(negative, whole, Some(s[1..][..m]), s[1..][m..])
    else ParseRest(negative, whole, None, s)
  }

  function ParseUnsigned(negative: bool, s: string): Option<Literal>
  {
    var n := DigitRun(s);
    if n == 0 || (n > 1 && s[0] == '0') then None else ParseFraction(negative, s[..n], s[n..])
  }

  /** The literal a text is, None when the pattern does not match. */
  function Parse(text: string): Option<Literal>
  {
    if text != "" && text[0] == '-' then ParseUnsigned(true, text[1..]) else ParseUnsigned(false, text)
  }

  lemma RestIsSound(negative: bool, whole: string, fraction: Option<string>, s: string)
    requires whole != "" && IsDigits(whole) && (|whole| > 1 ==> whole[0] != '0')
    requires fraction.Some? ==> fraction.value != "" && IsDigits(fraction.value)
    ensures
      var r := ParseRest(negative, whole, fraction, s);
      r.Some? ==>
        WellFormed(r.value) && s == Tail(r.value) && r.value.negative == negative && r.value.whole == whole
        && r.value.fraction == fraction
  {
  }

  lemma FractionIsSound(negative: bool, whole: string, s: string)
    requires whole != "" && IsDigits(whole) && (|whole| > 1 ==> whole[0] != '0')
    ensures
      var r := ParseFraction(negative, whole, s);
      r.Some? ==>
        WellFormed(r.value) && s == Dot(r.value) + Tail(r.value) && r.value.negative == negative
        && r.value.whole == whole
  {
    hide ParseRest, WellFormed, Tail;
    if s != "" && s[0] == '.' {
      var t := s[1..];
      var m := DigitRun(t);
      if m > 0 {
        RestIsSound(negative, whole, Some(t[..m]), t[m..]);
        assert s == ("." + t[..m]) + t[m..];
      }
    } else {
      RestIsSound(negative, whole, None, s);
      assert s == "" + s;
    }
  }

  lemma UnsignedIsSound(negative: bool, s: string)
    ensures
      var r := ParseUnsigned(negative, s);
      r.Some? ==>
        WellFormed(r.value) && s == r.value.whole + (Dot(r.value) + Tail(r.value))
        && r.value.negative == negative
  {
    var n := DigitRun(s);
    if n > 0 && (n > 1 ==> s[0] != '0') {
      hide ParseFraction, WellFormed, Dot, Tail;
      FractionIsSound(negative, s[..n], s[n..]);
      assert s == s[..n] + s[n..];
    }
  }

  /** Only well-formed literals are accepted, each as exactly what it is written. */
  lemma ParseIsSound(text: string)
    ensures Parse(text).Some? ==> WellFormed(Parse(text).value) && Render(Parse(text).value) == text
  {
    hide ParseUnsigned, WellFormed, Dot, Tail;
    if text != "" && text[0] == '-' {
      UnsignedIsSound(true, text[1..]);
      assert text == "-" + text[1..];
    } else {
      UnsignedIsSound(false, text);
    }
    if Parse(text).Some? {
      var l := Parse(text).value;
      assert Render(l) == Sign(l) + (l.whole + (Dot(l) + Tail(l)));
    }
  }

  lemma {:induction false} RunStops(a: string, b: string)
    requires IsDigits(a) && (b == "" || !IsDigit(b[0]))
    ensures DigitRun(a + b) == |a|
    decreases |a|
  {
    if a == "" {
      assert a + b == b;
    } else {
      assert (a + b)[1..] == a[1..] + b;
      RunStops(a[1..], b);
    }
  }

  lemma TailParses(l: Literal)
    requires WellFormed(l)
    ensures ParseRest(l.negative, l.whole, l.fraction, Tail(l)) == Some(l)
    ensures Tail(l) == "" || (!IsDigit(Tail(l)[0]) && Tail(l)[0] != '.')
  {
    if l.exponent.Some? {
      var e := l.exponent.value;
      var s := Tail(l);
      assert s[0] == e.marker;
      if e.sign == "" {
        assert s[1..] == e.digits && s[1] == e.digits[0];
      } else {
        assert s[1..2] == e.sign && s[2..] == e.digits && s[1] == e.sign[0];
      }
    }
  }

  lemma Split(a: string, b: string)
    ensures (a + b)[..|a|] == a && (a + b)[|a|..] == b
  {
  }

  lemma FractionStep(negative: bool, whole: string, f: string, tail: string)
    requires f != "" && IsDigits(f) && (tail == "" || !IsDigit(tail[0]))
    ensures ParseFraction(negative, whole, "." + f + tail) == ParseRest(negative, whole, Some(f), tail)
  {
    hide ParseRest, IsDigit;
    var s := "." + f + tail;
    assert s[0] == '.';
    assert s[1..] == f + tail;
    RunStops(f, tail);
    Split(f, tail);
  }

  lemma UnsignedStep(negative: bool, whole: string, rest: string)
    requires whole != "" && IsDigits(whole) && (|whole| > 1 ==> whole[0] != '0')
    requires rest == "" || !IsDigit(rest[0])
    ensures ParseUnsigned(negative, whole + rest) == ParseFraction(negative, whole, rest)
  {
    hide ParseFraction, IsDigit;
    RunStops(whole, rest);
    Split(whole, rest);
    assert (whole + rest)[0] == whole[0];
  }

  lemma FractionReadsBack(l: Literal)
    requires WellFormed(l)
    ensures ParseFraction(l.negative, l.whole, Dot(l) + Tail(l)) == Some(l)
    ensures var s := Dot(l) + Tail(l); s == "" || !IsDigit(s[0])
  {
    TailParses(l);
    hide ParseRest, Tail, IsDigit;
    if l.fraction.Some? {
      FractionStep(l.negative, l.whole, l.fraction.value, Tail(l));
      assert (Dot(l) + Tail(l))[0] == '.';
      assert !IsDigit('.') by { NotADigit(); }
    } else {
      assert Dot(l) + Tail(l) == Tail(l);
    }
  }

  lemma NotADigit()
    ensures !IsDigit('.') && !IsDigit('-')
  {
  }

  lemma SignParses(negative: bool, s: string)
    requires s != "" && s[0] != '-'
    ensures Parse((if negative then "-" else "") + s) == ParseUnsigned(negative, s)
  {
    hide ParseUnsigned;
    if negative {
      Split("-", s);
    } else {
      assert "" + s == s;
    }
  }

  lemma RenderOrder(l: Literal)
    ensures Render(l) == Sign(l) + (l.whole + (Dot(l) + Tail(l)))
  {
    hide Sign, Dot, Tail;
  }

  /** Every well-formed literal is accepted and read back: the grammar is unambiguous. */
  lemma ParseReadsBack(l: Literal)
    requires WellFormed(l)
    ensures Parse(Render(l)) == Some(l)
  {
    hide ParseFraction, ParseUnsigned, Parse, Render, Dot, Tail, IsDigit;
    var rest := Dot(l) + Tail(l);
    FractionReadsBack(l);
    UnsignedStep(l.negative, l.whole, rest);
    assert IsDigit(l.whole[0]);
    assert l.whole[0] != '-' by { NotADigit(); }
    SignParses(l.negative, l.whole + rest);
    RenderOrder(l);
  }

  // ---------------------------------------------------------------- what a literal denotes

  function Signed(s: string): int
    requires s != "" && (if s[0] == '-' || s[0] == '+' then IsDigits(s[1..]) else IsDigits(s))
  {
    if s[0] == '-' then 0 - Number(s[1..]) else if s[0] == '+' then Number(s[1..]) else Number(s)
  }

  function ExponentValue(l: Literal): int
    requires WellFormed(l)
  {
    if l.exponent.None? then 0
    else if l.exponent.value.sign == "-" then 0 - Number(l.exponent.value.digits)
    else Number(l.exponent.value.digits)
  }

  function FractionDigits(l: Literal): string
  {
    if l.fraction.Some? then l.fraction.value else ""
  }

  /** 0.d1d2d3... */
  function Fraction(s: string): real
    requires IsDigits(s)
  {
    if s == "" then 0.0 else (DigitValue(s[0]) as real + Fraction(s[1..])) / 10.0
  }

  /** The value of a literal by place value, for an exponent of any size. */
  function Value(l: Literal): real
    requires WellFormed(l)
  {
    if l.negative then -Magnitude(l) else Magnitude(l)
  }

  function Magnitude(l: Literal): real
    requires WellFormed(l)
  {
    Product(Number(l.whole) as real + Fraction(FractionDigits(l)), Scale(ExponentValue(l)))
  }

  // ---------------------------------------------------------------- the normal form

  datatype Normal = Normal(digits: string, exponent: int)

  predicate ProperDigits(s: string)
  {
    s != "" && IsDigits(s) && s[0] != '0' && s[|s| - 1] != '0'
  }

  predicate Canonical(n: Normal)
  {
    n == Normal("0", 0) || ProperDigits(n.digits)
      || (n.digits != "" && n.digits[0] == '-' && ProperDigits(n.digits[1..]))
  }

  /** Signed significant digits times a power of ten. */
  function Denotes(n: Normal): real
    requires Canonical(n)
  {
    Product(Signed(n.digits) as real, Scale(n.exponent))
  }

  /** The literal without its exponent, then also without its sign, then also without its point. */
  function Head(l: Literal): string { Sign(l) + l.whole + Dot(l) }

  function Body(l: Literal): string { l.whole + Dot(l) }

  function AllDigits(l: Literal): string { l.whole + FractionDigits(l) }

  function WithSign(negative: bool, digits: string): string
  {
    if negative then "-" + digits else digits
  }

  function NormalForm(l: Literal): Normal
    requires WellFormed(l)
  {
    var significant := TrimLeft(AllDigits(l));
    if significant == "" then Normal("0", 0)
    else
      var digits := TrimRight(significant);
      Normal(WithSign(l.negative, digits), ExponentValue(l) + (|significant| - |digits| - |FractionDigits(l)|))
  }

  /** None when the text is not a JSON number. */
  function Normalized(text: string): Option<Normal>
  {
    ParseIsSound(text);
    var l := Parse(text);
    if l.None? then None else Some(NormalForm(l.value))
  }

  function IndexAny(s: string, chars: set<char>): (i: int)
    ensures -1 <= i < |s|
  {
    if s == "" then -1
    else if s[0] in chars then 0
    else
      var i := IndexAny(s[1..], chars);
      if i < 0 then -1 else i + 1
  }

  lemma {:induction false} IndexIs(chars: set<char>, before: string, rest: string)
    requires forall k | 0 <= k < |before| :: before[k] !in chars
    requires rest == "" || rest[0] in chars
    ensures IndexAny(before + rest, chars) == if rest == "" then -1 else |before|
  {
    var s := before + rest;
    if before == "" {
      assert s == rest;
    } else {
      assert s[0] == before[0] && s[1..] == before[1..] + rest;
      IndexIs(chars, before[1..], rest);
    }
  }

  lemma SplitAfter(a: string, b: string)
    requires b != ""
    ensures |a + b| > |a| && (a + b)[..|a|] == a && (a + b)[|a| + 1..] == b[1..]
  {
  }

  lemma BeforeExponent(l: Literal)
    requires WellFormed(l)
    ensures forall k | 0 <= k < |Head(l)| :: Head(l)[k] !in {'e', 'E'}
  {
    assert forall k | 0 <= k < |Dot(l)| :: Dot(l)[k] == '.' || IsDigit(Dot(l)[k]);
  }

  lemma TailShape(l: Literal)
    requires WellFormed(l)
    ensures if l.exponent.None? then Tail(l) == "" && ExponentValue(l) == 0
      else Tail(l) != "" && Tail(l)[0] in {'e', 'E'} && Tail(l)[1..] == l.exponent.value.sign + l.exponent.value.digits
  {
    if l.exponent.Some? {
      var e := l.exponent.value;
      assert Tail(l) == [e.marker] + (e.sign + e.digits);
    }
  }

  /** Where the exponent starts, and what is left of it. */
  lemma ExponentStage(l: Literal)
    requires WellFormed(l)
    ensures IndexAny(Render(l), {'e', 'E'}) == if l.exponent.None? then -1 else |Head(l)|
    ensures l.exponent.None? ==> Render(l) == Head(l) && ExponentValue(l) == 0
    ensures l.exponent.Some? ==>
      && |Render(l)| > |Head(l)| && Render(l)[..|Head(l)|] == Head(l)
      && Render(l)[|Head(l)| + 1..] == l.exponent.value.sign + l.exponent.value.digits
  {
    assert Render(l) == Head(l) + Tail(l);
    hide Head, Render, Tail, WellFormed, ExponentValue;
    BeforeExponent(l);
    TailShape(l);
    IndexIs({'e', 'E'}, Head(l), Tail(l));
    if l.exponent.Some? {
      SplitAfter(Head(l), Tail(l));
    } else {
      assert Head(l) + "" == Head(l);
    }
  }

  /** What strings.HasPrefix and strings.TrimPrefix make of the sign. */
  lemma SignStage(l: Literal)
    requires WellFormed(l)
    ensures Head(l) != "" && (Head(l)[0] == '-' <==> l.negative)
    ensures (if l.negative then Head(l)[1..] else Head(l)) == Body(l)
  {
    hide Dot;
    assert IsDigit(l.whole[0]);
    if l.negative {
      assert Head(l) == "-" + Body(l);
    } else {
      assert Head(l) == Body(l) && Head(l)[0] == l.whole[0];
    }
  }

  function Undotted(text: string, index: int): string
    requires -1 <= index < |text|
  {
    if index >= 0 then text[..index] + text[index + 1..] else text
  }

  function AfterDot(text: string, index: int): int
    requires -1 <= index < |text|
  {
    if index >= 0 then |text| - index - 1 else 0
  }

  lemma DotStage(l: Literal)
    requires WellFormed(l)
    ensures
      var index := IndexAny(Body(l), {'.'});
      Undotted(Body(l), index) == AllDigits(l) && AfterDot(Body(l), index) == |FractionDigits(l)|
  {
    assert forall k | 0 <= k < |l.whole| :: IsDigit(l.whole[k]);
    IndexIs({'.'}, l.whole, Dot(l));
    if l.fraction.Some? {
      SplitAfter(l.whole, Dot(l));
      assert Dot(l)[1..] == l.fraction.value;
    }
  }

  lemma NormalizedIs(input: string)
    ensures Parse(input).None? ==> Normalized(input) == None
    ensures Parse(input).Some? ==>
      && WellFormed(Parse(input).value) && Render(Parse(input).value) == input
      && Normalized(input) == Some(NormalForm(Parse(input).value))
  {
    ParseIsSound(input);
    hide Parse, WellFormed, NormalForm, Render;
  }

  lemma NormalFormIs(l: Literal)
    requires WellFormed(l)
    ensures
      var text := TrimLeft(AllDigits(l));
      if text == "" then NormalForm(l) == Normal("0", 0)
      else
        var exponent := ExponentValue(l) + (|text| - |TrimRight(text)| - |FractionDigits(l)|);
        NormalForm(l) == Normal(WithSign(l.negative, TrimRight(text)), exponent)
  {
  }

  /** The exponent is cut off at the first e or E. */
  method CutExponent(input: string, ghost l: Literal) returns (text: string, exponent: int)
    requires WellFormed(l) && input == Render(l)
    ensures text == Head(l) && exponent == ExponentValue(l)
  {
    hide Render, WellFormed, Signed, ExponentValue, IndexAny, IsDigits, Head;
    ExponentStage(l);
    text, exponent := input, 0;
    var index := IndexAny(text, {'e', 'E'});
    if index >= 0 {
      ExponentText(l);
      exponent := Signed(text[index + 1..]);
      text := text[..index];
    }
  }

  method CutSign(input: string, ghost l: Literal) returns (text: string, negative: bool)
    requires WellFormed(l) && input == Head(l)
    ensures text == Body(l) && negative == l.negative
  {
    hide WellFormed, Head, Body;
    SignStage(l);
    text, negative := input, input[0] == '-';
    if negative {
      text := text[1..];
    }
  }

  method CutPoint(input: string, ghost l: Literal) returns (text: string, fractionDigits: nat)
    requires WellFormed(l) && input == Body(l)
    ensures text == AllDigits(l) && fractionDigits == |FractionDigits(l)|
  {
    hide WellFormed, Body, AllDigits, FractionDigits, IndexAny;
    DotStage(l);
    text, fractionDigits := input, 0;
    var index := IndexAny(text, {'.'});
    if index >= 0 {
      fractionDigits := |text| - index - 1;
      text := text[..index] + text[index + 1..];
    }
  }

  method NormalizeParameterNumber(input: string) returns (r: Option<Normal>)
    ensures r == Normalized(input)
  {
    hide Parse, Render, WellFormed, ExponentValue, TrimLeft, TrimRight, WithSign,
      Head, Body, AllDigits, FractionDigits, Normalized, NormalForm;
    NormalizedIs(input);
    if Parse(input).None? {
      return None;
    }
    ghost var l := Parse(input).value;
    NormalFormIs(l);
    var text, exponent := CutExponent(input, l);
    var negative;
    text, negative := CutSign(text, l);
    var fractionDigits;
    text, fractionDigits := CutPoint(text, l);
    text := TrimLeft(text);
    if text == "" {
      return Some(Normal("0", 0));
    }
    var digits := TrimRight(text);
    exponent := exponent + (|text| - |digits| - fractionDigits);
    return Some(Normal(WithSign(negative, digits), exponent));
  }

  lemma ExponentText(l: Literal)
    requires WellFormed(l) && l.exponent.Some?
    ensures
      var s := l.exponent.value.sign + l.exponent.value.digits;
      && s != "" && (if s[0] == '-' || s[0] == '+' then IsDigits(s[1..]) else IsDigits(s))
      && Signed(s) == ExponentValue(l)
  {
    var e := l.exponent.value;
    var s := e.sign + e.digits;
    if e.sign == "" {
      assert s == e.digits && IsDigit(s[0]);
    } else {
      assert s[0] == e.sign[0] && s[1..] == e.digits;
    }
  }
}
