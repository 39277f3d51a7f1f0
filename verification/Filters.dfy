/** Search filters over payload fields, and their split into a part that the vector provider
    applies and a part that is applied to what it returns. */
module Filters {
  import opened Instants
  import opened Options

  datatype Scalar = Text(text: string) | Number(number: real) | Flag(flag: bool)

  /** A payload value; a missing key reads as `Nothing`. */
  datatype Value = Nothing | One(scalar: Scalar) | Many(items: seq<Scalar>)

  type Payload = map<string, Value>

  /** `str`, applied to a payload value before it is compared as a date. */
  type Rendering = Value -> string

  datatype DateRange = DateRange(fromValue: Option<string>, toValue: Option<string>)

  function Read(payload: Payload, key: string): Value {
    if key in payload then payload[key] else Nothing
  }

  /** Equality of scalars: true and false equal the numbers 1 and 0. */
  predicate Same(a: Scalar, b: Scalar) {
    if a.Text? || b.Text? then a == b else AsNumber(a) == AsNumber(b)
  }

  function AsNumber(s: Scalar): real
    requires !s.Text?
  {
    if s.Number? then s.number else if s.flag then 1.0 else 0.0
  }

  predicate Truth(v: Value) {
    match v
    case Nothing => false
    case One(Text(t)) => t != ""
    case One(s) => AsNumber(s) != 0.0
    case Many(items) => items != []
  }

  predicate EqualsMatch(v: Value, expected: Scalar) {
    v.One? && Same(v.scalar, expected)
  }

  predicate AnyMatch(v: Value, expected: seq<Scalar>) {
    match v
    case Nothing => false
    case One(s) => exists e :: e in expected && Same(s, e)
    case Many(items) => exists s, e :: s in items && e in expected && Same(s, e)
  }

  predicate RangeMatch(show: Rendering, v: Value, bounds: DateRange) {
    && !v.Nothing?
    && (bounds.fromValue.Some? ==> !Less(show(v), bounds.fromValue.value))
    && (bounds.toValue.Some? ==> !Less(bounds.toValue.value, show(v)))
  }

  datatype VectorSearchFilters = VectorSearchFilters(
    equals: map<string, Scalar>,
    anyOf: map<string, seq<Scalar>>,
    booleans: map<string, bool>,
    dateRanges: map<string, DateRange>)
  {
    function Fields(): set<string> {
      equals.Keys + anyOf.Keys + booleans.Keys + dateRanges.Keys
    }

    function Only(fields: set<string>): VectorSearchFilters {
      VectorSearchFilters(
        map k | k in equals && k in fields :: equals[k],
        map k | k in anyOf && k in fields :: anyOf[k],
        map k | k in booleans && k in fields :: booleans[k],
        map k | k in dateRanges && k in fields :: dateRanges[k])
    }

    function Without(fields: set<string>): VectorSearchFilters {
      VectorSearchFilters(
        map k | k in equals && k !in fields :: equals[k],
        map k | k in anyOf && k !in fields :: anyOf[k],
        map k | k in booleans && k !in fields :: booleans[k],
        map k | k in dateRanges && k !in fields :: dateRanges[k])
    }

    predicate Matches(show: Rendering, payload: Payload) {
      && (forall k :: k in equals ==> EqualsMatch(Read(payload, k), equals[k]))
      && (forall k :: k in anyOf ==> AnyMatch(Read(payload, k), anyOf[k]))
      && (forall k :: k in booleans ==> Truth(Read(payload, k)) == booleans[k])
      && (forall k :: k in dateRanges ==> RangeMatch(show, Read(payload, k), dateRanges[k]))
    }
  }

  /** What one field asks of a payload. */
  predicate FieldMatches(f: VectorSearchFilters, show: Rendering, payload: Payload, k: string) {
    && (k in f.equals ==> EqualsMatch(Read(payload, k), f.equals[k]))
    && (k in f.anyOf ==> AnyMatch(Read(payload, k), f.anyOf[k]))
    && (k in f.booleans ==> Truth(Read(payload, k)) == f.booleans[k])
    && (k in f.dateRanges ==> RangeMatch(show, Read(payload, k), f.dateRanges[k]))
  }

  /** A filter asks field by field. */
  lemma MatchesByField(f: VectorSearchFilters, show: Rendering, payload: Payload)
    ensures f.Matches(show, payload) <==> forall k :: k in f.Fields() ==> FieldMatches(f, show, payload, k)
  {
    if forall k :: k in f.Fields() ==> FieldMatches(f, show, payload, k) {
      assert forall k :: k in f.equals ==> k in f.Fields();
      assert forall k :: k in f.anyOf ==> k in f.Fields();
      assert forall k :: k in f.booleans ==> k in f.Fields();
      assert forall k :: k in f.dateRanges ==> k in f.Fields();
    }
  }

  /** The two parts share no field and have all fields between them. */
  lemma SplitPartitionsFields(f: VectorSearchFilters, fields: set<string>)
    ensures f.Only(fields).Fields() == f.Fields() * fields
    ensures f.Without(fields).Fields() == f.Fields() - fields
  {
    forall k
      ensures k in f.Only(fields).Fields() <==> k in f.Fields() && k in fields
      ensures k in f.Without(fields).Fields() <==> k in f.Fields() && k !in fields
    {
      FieldIsInOnePart(f, fields, k);
    }
  }

  lemma FieldIsInOnePart(f: VectorSearchFilters, fields: set<string>, k: string)
    ensures k in f.Only(fields).Fields() <==> k in f.Fields() && k in fields
    ensures k in f.Without(fields).Fields() <==> k in f.Fields() && k !in fields
  {
  }

  lemma FieldOfPart(f: VectorSearchFilters, fields: set<string>, show: Rendering, payload: Payload, k: string)
    ensures k in fields ==>
              (FieldMatches(f, show, payload, k) <==> FieldMatches(f.Only(fields), show, payload, k))
    ensures k !in fields ==>
              (FieldMatches(f, show, payload, k) <==> FieldMatches(f.Without(fields), show, payload, k))
  {
  }

  /** A payload matches a filter exactly when it matches both parts. */
  lemma SplitKeepsMeaning(f: VectorSearchFilters, fields: set<string>, show: Rendering, payload: Payload)
    ensures f.Matches(show, payload)
       <==> f.Only(fields).Matches(show, payload) && f.Without(fields).Matches(show, payload)
  {
    MatchesByField(f, show, payload);
    MatchesByField(f.Only(fields), show, payload);
    MatchesByField(f.Without(fields), show, payload);
    SplitPartitionsFields(f, fields);
    forall k | k in f.Fields()
      ensures k in fields ==>
                (FieldMatches(f, show, payload, k) <==> FieldMatches(f.Only(fields), show, payload, k))
      ensures k !in fields ==>
                (FieldMatches(f, show, payload, k) <==> FieldMatches(f.Without(fields), show, payload, k))
    {
      FieldOfPart(f, fields, show, payload, k);
    }
  }

  /** A filter reads no field but its own, so a provider that stores only `fields` decides
      `Only(fields)` as the whole payload would. */
  lemma OnlyReadsItsFields(f: VectorSearchFilters, fields: set<string>, show: Rendering, payload: Payload)
    ensures var stored: Payload := map k | k in payload && k in fields :: payload[k];
            f.Only(fields).Matches(show, stored) <==> f.Only(fields).Matches(show, payload)
  {
    var stored: Payload := map k | k in payload && k in fields :: payload[k];
    MatchesByField(f.Only(fields), show, stored);
    MatchesByField(f.Only(fields), show, payload);
    SplitPartitionsFields(f, fields);
    forall k | k in f.Only(fields).Fields()
      ensures FieldMatches(f.Only(fields), show, stored, k) <==> FieldMatches(f.Only(fields), show, payload, k)
    {
      assert Read(stored, k) == Read(payload, k);
    }
  }

  function Matching(f: VectorSearchFilters, show: Rendering, hits: seq<Payload>): seq<Payload> {
    if hits == [] then []
    else (if f.Matches(show, hits[0]) then [hits[0]] else []) + Matching(f, show, hits[1..])
  }

  /** Filtering in two stages, by the provider's part and then by the rest, keeps the same hits
      in the same order as filtering once. */
  lemma {:induction false} TwoStagesAreOne(
      f: VectorSearchFilters, fields: set<string>, show: Rendering, hits: seq<Payload>)
    ensures Matching(f.Without(fields), show, Matching(f.Only(fields), show, hits)) == Matching(f, show, hits)
    decreases |hits|
  {
    if hits != [] {
      SplitKeepsMeaning(f, fields, show, hits[0]);
      TwoStagesAreOne(f, fields, show, hits[1..]);
      var rest := Matching(f.Only(fields), show, hits[1..]);
      assert ([hits[0]] + rest)[1..] == rest;
      assert [] + rest == rest;
    }
  }

  // ---- what the tests mean -----------------------------------------------------------------------

  /** Scalars are equal as they are, but for true and false, which equal the numbers 1 and 0. */
  lemma SameIff(a: Scalar, b: Scalar)
    ensures Same(a, b)
       <==> || a == b
            || (a.Flag? && b.Number? && b.number == (if a.flag then 1.0 else 0.0))
            || (b.Flag? && a.Number? && a.number == (if b.flag then 1.0 else 0.0))
  {
  }

  /** What a value offers to a test for one of several: itself, or the items of a list. */
  function Offered(v: Value): seq<Scalar> {
    match v
    case Nothing => []
    case One(s) => [s]
    case Many(items) => items
  }

  /** A list never equals a scalar, but offers each of its items. */
  lemma AnyIffSomeOfferedEquals(v: Value, expected: seq<Scalar>)
    ensures AnyMatch(v, expected)
       <==> exists s, e :: s in Offered(v) && e in expected && EqualsMatch(One(s), e)
    ensures forall e :: EqualsMatch(v, e) <==> v.One? && EqualsMatch(One(v.scalar), e)
    ensures forall s, e :: EqualsMatch(One(s), e) <==> Same(s, e)
  {
    if s, e :| s in Offered(v) && e in expected && EqualsMatch(One(s), e) {
      assert Same(s, e);
    }
    if AnyMatch(v, expected) {
      var s, e :| s in Offered(v) && e in expected && Same(s, e);
      assert EqualsMatch(One(s), e);
    }
  }

  /** False are a missing value, the empty text, zero, false and the empty list; everything else is
      true. */
  lemma TruthIff(v: Value)
    ensures !Truth(v)
       <==> v in {Nothing, One(Text("")), One(Number(0.0)), One(Flag(false)), Many([])}
  {
  }

  /** A range is closed, an absent bound bounds nothing, and a missing value is in no range. */
  lemma RangeIff(show: Rendering, v: Value, bounds: DateRange)
    ensures RangeMatch(show, v, bounds)
       <==> && v != Nothing
            && (bounds.fromValue.Some? ==> show(v) == bounds.fromValue.value || Less(bounds.fromValue.value, show(v)))
            && (bounds.toValue.Some? ==> show(v) == bounds.toValue.value || Less(show(v), bounds.toValue.value))
  {
    if bounds.fromValue.Some? {
      LessIsTotal(show(v), bounds.fromValue.value);
    }
    if bounds.toValue.Some? {
      LessIsTotal(show(v), bounds.toValue.value);
    }
  }

  lemma {:induction false} LessIsTotal(a: string, b: string)
    ensures !Less(a, b) <==> a == b || Less(b, a)
    decreases |a|
  {
    if a != [] && b != [] && a[0] == b[0] {
      LessIsTotal(a[1..], b[1..]);
      assert a == [a[0]] + a[1..] && b == [b[0]] + b[1..];
    }
  }

  /** A payload is refused exactly when one field of the filter fails its test on the value under
      that key; a key that is not there has no value. */
  lemma RefusedIff(f: VectorSearchFilters, show: Rendering, payload: Payload)
    ensures !f.Matches(show, payload)
       <==> || (exists k :: k in f.equals && !(k in payload && EqualsMatch(payload[k], f.equals[k])))
            || (exists k :: k in f.anyOf && !(k in payload && AnyMatch(payload[k], f.anyOf[k])))
            || (exists k :: k in f.booleans && (k in payload && Truth(payload[k])) != f.booleans[k])
            || (exists k :: k in f.dateRanges && !(k in payload && RangeMatch(show, payload[k], f.dateRanges[k])))
  {
    forall k | k in f.equals
      ensures EqualsMatch(Read(payload, k), f.equals[k]) <==> k in payload && EqualsMatch(payload[k], f.equals[k])
    {
    }
    forall k | k in f.anyOf
      ensures AnyMatch(Read(payload, k), f.anyOf[k]) <==> k in payload && AnyMatch(payload[k], f.anyOf[k])
    {
    }
    forall k | k in f.booleans
      ensures Truth(Read(payload, k)) <==> k in payload && Truth(payload[k])
    {
    }
    forall k | k in f.dateRanges
      ensures RangeMatch(show, Read(payload, k), f.dateRanges[k])
         <==> k in payload && RangeMatch(show, payload[k], f.dateRanges[k])
    {
    }
  }

  lemma {:induction false} MatchingConcat(f: VectorSearchFilters, show: Rendering, a: seq<Payload>, b: seq<Payload>)
    ensures Matching(f, show, a + b) == Matching(f, show, a) + Matching(f, show, b)
    decreases |a|
  {
    if a == [] {
      assert a + b == b;
    } else {
      assert (a + b)[1..] == a[1..] + b;
      MatchingConcat(f, show, a[1..], b);
    }
  }

  /** Filtering keeps exactly the hits that match, each where it was. */
  lemma FilteringKeepsMatches(f: VectorSearchFilters, show: Rendering, hits: seq<Payload>, k: nat)
    requires k < |hits|
    ensures
      Matching(f, show, hits)
      == Matching(f, show, hits[..k])
         + ((if f.Matches(show, hits[k]) then [hits[k]] else []) + Matching(f, show, hits[k + 1..]))
    ensures Matching(f, show, []) == []
  {
    assert hits == hits[..k] + hits[k..] && hits[k..][1..] == hits[k + 1..];
    MatchingConcat(f, show, hits[..k], hits[k..]);
  }
}
