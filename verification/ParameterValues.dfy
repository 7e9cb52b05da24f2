/** Equality and typing of release parameter values (internal/domain/catalog_parameters.go:17-101)
    on the trees a JSON decoder builds, where a container may also be Go's nil. */
module ParameterValues {
  import opened ParameterNumbers
  import opened ParameterNumberLaws

  datatype Tree =
    | Null
    | Boolean(truth: bool)
    | Text(text: string)
    | Numeric(literal: string)
    | NilArray
    | Array(items: seq<Tree>)
    | NilObject
    | Object(entries: map<string, Tree>)

  datatype Kind = NoKind | BoolKind | StringKind | NumberKind | SliceKind | MapKind

  function KindOf(t: Tree): Kind
  {
    match t
    case Null => NoKind
    case Boolean(_) => BoolKind
    case Text(_) => StringKind
    case Numeric(_) => NumberKind
    case NilArray | Array(_) => SliceKind
    case NilObject | Object(_) => MapKind
  }

  predicate IsNil(t: Tree)
  {
    t.NilArray? || t.NilObject?
  }

  function ItemsOf(t: Tree): (s: seq<Tree>)
    ensures forall i | 0 <= i < |s| :: s[i] < t
  {
    if t.Array? then t.items else []
  }

  function EntriesOf(t: Tree): map<string, Tree>
  {
    if t.Object? then t.entries else map[]
  }

  predicate ParameterValuesEqual(left: Tree, right: Tree)
    decreases left
  {
    if left.Numeric? || right.Numeric? then
      && left.Numeric? && right.Numeric?
      && Normalized(left.literal).Some? && Normalized(right.literal).Some?
      && Normalized(left.literal).value.digits == Normalized(right.literal).value.digits
      && Normalized(left.literal).value.exponent == Normalized(right.literal).value.exponent
    else if left.Null? || right.Null? then left.Null? && right.Null?
    else if KindOf(left) != KindOf(right) then false
    else if KindOf(left) == MapKind then
      && IsNil(left) == IsNil(right)
      && |EntriesOf(left)| == |EntriesOf(right)|
      && (left.Object? ==> forall k | k in left.entries ::
          k in EntriesOf(right) && ParameterValuesEqual(left.entries[k], EntriesOf(right)[k]))
    else if KindOf(left) == SliceKind then
      && |ItemsOf(left)| == |ItemsOf(right)| && IsNil(left) == IsNil(right)
      && forall i | 0 <= i < |ItemsOf(left)| :: ParameterValuesEqual(ItemsOf(left)[i], ItemsOf(right)[i])
    else left == right
  }

  method ContainsParameterValue(values: seq<Tree>, value: Tree) returns (found: bool)
    ensures found <==> exists i | 0 <= i < |values| :: ParameterValuesEqual(values[i], value)
  {
    hide ParameterValuesEqual;
    for i := 0 to |values|
      invariant forall j | 0 <= j < i :: !ParameterValuesEqual(values[j], value)
    {
      if ParameterValuesEqual(values[i], value) {
        return true;
      }
    }
    return false;
  }

  // ---------------------------------------------------------------- what a tree means

  /** A tree with every number replaced by its exact value. */
  datatype Meaning =
    | NullMeaning
    | TruthMeaning(truth: bool)
    | TextMeaning(text: string)
    | NumberMeaning(value: real)
    | ArrayMeaning(absent: bool, items: seq<Meaning>)
    | ObjectMeaning(absent: bool, entries: map<string, Meaning>)

  predicate AllNumbersValid(t: Tree)
  {
    match t
    case Numeric(s) => ValidNumber(s)
    case Array(items) => forall i | 0 <= i < |items| :: AllNumbersValid(items[i])
    case Object(entries) => forall k | k in entries :: AllNumbersValid(entries[k])
    case _ => true
  }

  function MeaningOf(t: Tree): Meaning
    requires AllNumbersValid(t)
  {
    match t
    case Null => NullMeaning
    case Boolean(b) => TruthMeaning(b)
    case Text(s) => TextMeaning(s)
    case Numeric(s) => NumberMeaning(ValueOf(s))
    case NilArray => ArrayMeaning(true, [])
    case Array(items) => ArrayMeaning(false, seq(|items|, i requires 0 <= i < |items| => MeaningOf(items[i])))
    case NilObject => ObjectMeaning(true, map[])
    case Object(entries) => ObjectMeaning(false, map k | k in entries :: MeaningOf(entries[k]))
  }

  lemma {:induction false} SubsetOfSameSize<T>(a: set<T>, b: set<T>)
    requires a <= b && |a| == |b|
    ensures a == b
  {
    if a != b {
      var x :| x in b && x !in a;
      SmallerSubset(a, b - {x});
    }
  }

  lemma {:induction false} SmallerSubset<T>(a: set<T>, b: set<T>)
    requires a <= b
    ensures |a| <= |b|
    decreases a
  {
    if a != {} {
      var x :| x in a;
      SmallerSubset(a - {x}, b - {x});
    }
  }

  /** Comparing sizes and then looking every left key up on the right compares the key sets. */
  lemma SameKeys(a: map<string, Tree>, b: map<string, Tree>)
    ensures |a| == |b| && (forall k | k in a :: k in b) <==> a.Keys == b.Keys
  {
    assert |a| == |a.Keys| && |b| == |b.Keys|;
    if |a| == |b| && forall k | k in a :: k in b {
      SubsetOfSameSize(a.Keys, b.Keys);
    }
  }

  predicate SameMeaning(a: Tree, b: Tree)
  {
    AllNumbersValid(a) && AllNumbersValid(b) && MeaningOf(a) == MeaningOf(b)
  }

  lemma {:induction false} SameItems(a: Tree, b: Tree)
    requires a.Array? && b.Array?
    ensures SameMeaning(a, b) <==> |a.items| == |b.items| && forall i | 0 <= i < |a.items| ::
      SameMeaning(a.items[i], b.items[i])
  {
    if |a.items| == |b.items| && forall i | 0 <= i < |a.items| :: SameMeaning(a.items[i], b.items[i]) {
      assert MeaningOf(a).items == MeaningOf(b).items;
    }
    if SameMeaning(a, b) {
      assert |MeaningOf(a).items| == |a.items| && |MeaningOf(b).items| == |b.items|;
      forall i | 0 <= i < |a.items|
        ensures SameMeaning(a.items[i], b.items[i])
      {
        assert MeaningOf(a).items[i] == MeaningOf(a.items[i]) && MeaningOf(b).items[i] == MeaningOf(b.items[i]);
      }
    }
  }

  lemma {:induction false} SameEntries(a: Tree, b: Tree)
    requires a.Object? && b.Object?
    ensures SameMeaning(a, b) <==> a.entries.Keys == b.entries.Keys && forall k | k in a.entries ::
      k in b.entries && SameMeaning(a.entries[k], b.entries[k])
  {
    if a.entries.Keys == b.entries.Keys && forall k | k in a.entries ::
      k in b.entries && SameMeaning(a.entries[k], b.entries[k]) {
      assert forall k | k in b.entries :: k in a.entries;
      assert MeaningOf(a).entries == MeaningOf(b).entries;
    }
    if SameMeaning(a, b) {
      assert MeaningOf(a).entries.Keys == a.entries.Keys && MeaningOf(b).entries.Keys == b.entries.Keys;
      forall k | k in a.entries
        ensures k in b.entries && SameMeaning(a.entries[k], b.entries[k])
      {
        assert k in a.entries.Keys;
        assert MeaningOf(a).entries[k] == MeaningOf(a.entries[k]) && MeaningOf(b).entries[k] == MeaningOf(b.entries[k]);
      }
    }
  }

  lemma NumericEqual(a: Tree, b: Tree)
    requires a.Numeric? && b.Numeric?
    ensures ParameterValuesEqual(a, b) <==>
      Normalized(a.literal).Some?
      && Normalized(a.literal) == Normalized(b.literal)
  {
    hide Normalized, KindOf, ItemsOf, EntriesOf, IsNil;
  }

  lemma NumericMeaning(a: Tree, b: Tree)
    requires a.Numeric? && b.Numeric?
    ensures SameMeaning(a, b)
      <==> ValidNumber(a.literal) && ValidNumber(b.literal) && ValueOf(a.literal) == ValueOf(b.literal)
  {
    hide ValidNumber, ValueOf;
  }

  lemma EqualNumbers(a: Tree, b: Tree)
    requires a.Numeric? && b.Numeric?
    ensures ParameterValuesEqual(a, b) <==> SameMeaning(a, b)
  {
    hide Normalized, ValidNumber, ValueOf, ParameterValuesEqual, SameMeaning;
    NumericEqual(a, b);
    NumericMeaning(a, b);
    SameTextsIffSameNumber(a.literal, b.literal);
  }

  /** Parameter values are equal exactly when every number in them is valid and they mean the same. */
  lemma {:induction false} EqualIffSameMeaning(a: Tree, b: Tree)
    ensures ParameterValuesEqual(a, b) <==> SameMeaning(a, b)
    decreases a
  {
    hide Normalized, ValidNumber, ValueOf;
    if a.Numeric? && b.Numeric? {
      EqualNumbers(a, b);
    } else if a.Array? && b.Array? {
      SameItems(a, b);
      hide SameMeaning;
      forall i | 0 <= i < |a.items| && |a.items| == |b.items|
        ensures ParameterValuesEqual(a.items[i], b.items[i]) <==> SameMeaning(a.items[i], b.items[i])
      {
        EqualIffSameMeaning(a.items[i], b.items[i]);
      }
    } else if a.Object? && b.Object? {
      SameEntries(a, b);
      SameKeys(a.entries, b.entries);
      hide SameMeaning;
      forall k | k in a.entries && k in b.entries
        ensures ParameterValuesEqual(a.entries[k], b.entries[k]) <==> SameMeaning(a.entries[k], b.entries[k])
      {
        EqualIffSameMeaning(a.entries[k], b.entries[k]);
      }
    }
  }

  /** Equality is symmetric and transitive; a value equals itself exactly when its numbers are valid. */
  lemma EqualityIsPartialEquivalence(a: Tree, b: Tree, c: Tree)
    ensures ParameterValuesEqual(a, a) <==> AllNumbersValid(a)
    ensures ParameterValuesEqual(a, b) <==> ParameterValuesEqual(b, a)
    ensures ParameterValuesEqual(a, b) && ParameterValuesEqual(b, c) ==> ParameterValuesEqual(a, c)
  {
    EqualIffSameMeaning(a, a);
    EqualIffSameMeaning(a, b);
    EqualIffSameMeaning(b, a);
    EqualIffSameMeaning(b, c);
    EqualIffSameMeaning(a, c);
    hide ParameterValuesEqual, AllNumbersValid, MeaningOf;
  }

  // ---------------------------------------------------------------- types

  datatype ParameterType =
    | StringType | BooleanType | ObjectType | ArrayType | NumberType | IntegerType | NullType | OtherType

  predicate MatchesParameterType(value: Tree, expected: ParameterType)
  {
    if value.Null? then expected.NullType?
    else
      match expected
      case StringType => KindOf(value).StringKind?
      case BooleanType => KindOf(value).BoolKind?
      case ObjectType => KindOf(value).MapKind?
      case ArrayType => KindOf(value).SliceKind?
      case NumberType => value.Numeric? && Normalized(value.literal).Some?
      case IntegerType => value.Numeric? && Normalized(value.literal).Some?
        && Normalized(value.literal).value.exponent >= 0
      case NullType => false
      case OtherType => true
  }

  /** "integer" accepts exactly the valid numbers whose value is an integer, however they are written. */
  lemma IntegerTypeIsExact(value: Tree)
    ensures MatchesParameterType(value, IntegerType)
      <==> value.Numeric? && ValidNumber(value.literal) && Integral(ValueOf(value.literal))
  {
    hide Parse, Normalized, NormalForm, Integral, Value, WellFormed, Render, KindOf;
    if value.Numeric? {
      NormalizedIs(value.literal);
      if ValidNumber(value.literal) {
        ExponentDecidesInteger(Parse(value.literal).value);
      }
    }
  }

  /** Every other type accepts the values of its own JSON kind, containers even when absent; a null has
      no type but its own, and a type the catalog does not know accepts anything else. */
  lemma TypesExactly(value: Tree)
    ensures MatchesParameterType(value, StringType) <==> value.Text?
    ensures MatchesParameterType(value, BooleanType) <==> value.Boolean?
    ensures MatchesParameterType(value, ObjectType) <==> value.Object? || value.NilObject?
    ensures MatchesParameterType(value, ArrayType) <==> value.Array? || value.NilArray?
    ensures MatchesParameterType(value, NumberType) <==> value.Numeric? && ValidNumber(value.literal)
    ensures MatchesParameterType(value, NullType) <==> value.Null?
    ensures MatchesParameterType(value, OtherType) <==> !value.Null?
  {
    hide Parse, Normalized, NormalForm;
    if value.Numeric? {
      NormalizedIs(value.literal);
    }
  }

  /** Equal values have the same types: a default or an allowed value never changes type by comparison. */
  lemma EqualValuesShareTypes(a: Tree, b: Tree, expected: ParameterType)
    requires ParameterValuesEqual(a, b)
    ensures MatchesParameterType(a, expected) == MatchesParameterType(b, expected)
  {
    hide Normalized;
  }
}
