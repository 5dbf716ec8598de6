/** The validation helpers documents use in their Validate hooks. */
module Validate {
  import opened Errors
  import opened Store

  // ---------------------------------------------------------------------------
  // stringInSlice and ValidateInclusionIn

  /** Whether `a` equals some element of `list`, scanning from the front. */
  function InSlice(a: string, list: seq<string>): bool
    decreases |list|
  {
    |list| > 0 && (list[0] == a || InSlice(a, list[1..]))
  }

  /** The scan answers exactly membership. */
  lemma {:induction false} InSliceIsMembership(a: string, list: seq<string>)
    ensures InSlice(a, list) <==> a in list
    decreases |list|
  {
    if |list| > 0 {
      InSliceIsMembership(a, list[1..]);
      assert list == [list[0]] + list[1..];
    }
  }

  /** stringInSlice: the first equal element ends the loop with true. */
  method StringInSlice(a: string, list: seq<string>) returns (found: bool)
    ensures found == InSlice(a, list)
    ensures found <==> a in list
  {
    InSliceIsMembership(a, list);
    for i := 0 to |list|
      invariant InSlice(a, list) == InSlice(a, list[i..])
    {
      if list[i] == a {
        return true;
      }
      assert list[i..][1..] == list[i + 1..];
    }
    return false;
  }

  /** ValidateInclusionIn: the value is one of the options. */
  function ValidateInclusionIn(value: string, options: seq<string>): (r: bool)
    ensures r <==> value in options
    ensures |options| == 0 ==> !r
  {
    InSliceIsMembership(value, options);
    InSlice(value, options)
  }

  lemma InclusionInExamples()
    ensures ValidateInclusionIn("foo", ["foo", "bar", "baz"])
    ensures !ValidateInclusionIn("bing", ["foo", "bar", "baz"])
  {
  }

  // ---------------------------------------------------------------------------
  // ValidateRequired

  /** A value passed to ValidateRequired, tagged with its dynamic type. Slices and maps are
      not comparable in Go; Nil is an untyped nil. */
  datatype Field =
    | StrField(s: string)
    | IntField(i: int)
    | BoolField(b: bool)
    | IdField(id: ObjectId)
    | TimeField(t: int)
    | SliceField(items: seq<Field>)
    | Nil

  /** Whether Go can compare values of the field's dynamic type with !=. */
  predicate Comparable(v: Field)
  {
    !v.SliceField? && !v.Nil?
  }

  /** The zero value of the field's type. */
  function ZeroOf(v: Field): Field
    requires Comparable(v)
  {
    match v
    case StrField(_) => StrField("")
    case IntField(_) => IntField(0)
    case BoolField(_) => BoolField(false)
    case IdField(_) => IdField(ZeroId)
    case TimeField(_) => TimeField(0)
  }

  /** ValidateRequired: the value differs from its type's zero value; None where the source
      panics (an untyped nil, or a type without equality). */
  function ValidateRequired(v: Field): (r: Option<bool>)
    ensures r.None? <==> v.Nil? || v.SliceField?
  {
    if Comparable(v) then Some(v != ZeroOf(v)) else None
  }

  /** For comparable values, ValidateRequired is false exactly on the zero value of the type. */
  lemma RequiredFailsExactlyOnZero(v: Field)
    requires Comparable(v)
    ensures ValidateRequired(v) == Some(false) <==>
      v == StrField("") || v == IntField(0) || v == BoolField(false) || v == IdField(ZeroId) || v == TimeField(0)
  {
  }

  lemma RequiredExamples()
    ensures ValidateRequired(StrField("foo")) == Some(true)
    ensures ValidateRequired(StrField("")) == Some(false)
    ensures ValidateRequired(IntField(0)) == Some(false)
    ensures ValidateRequired(IntField(1)) == Some(true)
  {
  }

  // ---------------------------------------------------------------------------
  // ValidateMongoIdRef

  /** ValidateMongoIdRef as written: false when the find fails, and false again when it
      succeeds, since a successful find always returns a cursor. */
  function MongoIdRefAsWritten(st: StoreState, faults: set<nat>, coll: string, id: ObjectId): bool
  {
    match FindResult(st, faults, coll, map["_id" := Id(id)])
    case Err(_) => false
    case Ok(_) => false
  }

  /** ValidateMongoIdRef as intended: the find succeeds and returns a document. */
  function MongoIdRef(st: StoreState, faults: set<nat>, coll: string, id: ObjectId): bool
  {
    match FindResult(st, faults, coll, map["_id" := Id(id)])
    case Err(_) => false
    case Ok(docs) => |docs| > 0
  }

  /** As written, no reference is ever valid. */
  lemma MongoIdRefAsWrittenRejectsAll(st: StoreState, faults: set<nat>, coll: string, id: ObjectId)
    ensures !MongoIdRefAsWritten(st, faults, coll, id)
  {
  }

  /** As intended, a reference is valid exactly when the find succeeds and a document has the ID. */
  lemma MongoIdRefIff(st: StoreState, faults: set<nat>, coll: string, id: ObjectId)
    requires id != ZeroId
    ensures MongoIdRef(st, faults, coll, id) <==>
      |st.log| !in faults && exists i :: 0 <= i < |Docs(st.db, coll)| && IdOf(Docs(st.db, coll)[i]) == id
  {
    var docs := Docs(st.db, coll);
    var q := map["_id" := Id(id)];
    FilterFacts(docs, q);
    if exists i :: 0 <= i < |docs| && IdOf(docs[i]) == id {
      var i :| 0 <= i < |docs| && IdOf(docs[i]) == id;
      assert Matches(docs[i], q);
    }
    if |Filter(docs, q)| > 0 {
      var i :| 0 <= i < |docs| && Matches(docs[i], q);
      assert IdOf(docs[i]) == id;
    }
  }

  /** A saved document's ID: the intended check accepts it, the written one does not. */
  lemma MongoIdRefCounterexample()
    ensures var st := StoreState(map["docs" := [map["_id" := Id(1)]]], []);
      MongoIdRef(st, {}, "docs", 1) && !MongoIdRefAsWritten(st, {}, "docs", 1)
  {
    var st := StoreState(map["docs" := [map["_id" := Id(1)]]], []);
    MongoIdRefIff(st, {}, "docs", 1);
    assert IdOf(Docs(st.db, "docs")[0]) == 1;
  }
}
