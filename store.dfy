/** The abstract document store the core talks to, standing in for MongoDB.

    A collection is a sequence of documents; a document maps field names to values.
    A query is a conjunction of field equalities. The only update operators are
    $set, $pull (remove the array entries whose fields match a condition) and
    $push (append), and their meaning on one document is given by ApplyOp: these
    functions are the store's axioms. The Store object records every request it
    receives in `log`; the requests whose log position is in `faults` fail and
    change nothing, which stands for every way a real server can reject a call. */
module Store {
  import opened Errors

  type ObjectId = nat

  /** The zero ObjectID (ObjectID.IsZero). */
  const ZeroId: ObjectId := 0

  datatype Value =
    | Null
    | Bool(b: bool)
    | Int(i: int)
    | Str(s: string)
    | Id(oid: ObjectId)
    | Map(fields: map<string, Value>)
    | Array(items: seq<Value>)

  type Doc = map<string, Value>

  /** bson.M used as a filter: every listed field must be present with that value. */
  type Query = map<string, Value>

  type DB = map<string, seq<Doc>>

  predicate Matches(d: Doc, q: Query)
  {
    forall k :: k in q ==> k in d && d[k] == q[k]
  }

  /** The document's `_id`, or the zero ID when it has none. */
  function IdOf(d: Doc): ObjectId
  {
    if "_id" in d && d["_id"].Id? then d["_id"].oid else ZeroId
  }

  // ---------------------------------------------------------------------------
  // Update operators on one document

  datatype Op =
    | Set(fields: map<string, Value>)
    | Pull(field: string, cond: Query)
    | Push(field: string, item: Value)

  /** An array entry that a $pull with condition `cond` removes. */
  predicate Selected(item: Value, cond: Query)
  {
    item.Map? && Matches(item.fields, cond)
  }

  /** The entries that survive a $pull. */
  function Without(items: seq<Value>, cond: Query): seq<Value>
  {
    if |items| == 0 then []
    else (if Selected(items[0], cond) then [] else [items[0]]) + Without(items[1..], cond)
  }

  /** How many entries a $pull with `cond` would remove. */
  function CountSelected(items: seq<Value>, cond: Query): nat
  {
    if |items| == 0 then 0
    else (if Selected(items[0], cond) then 1 else 0) + CountSelected(items[1..], cond)
  }

  /** The entries of an array field; no entries when the field is absent or not an array. */
  function ItemsOf(d: Doc, field: string): seq<Value>
  {
    if field in d && d[field].Array? then d[field].items else []
  }

  /** A field that $push can append to: absent, null or already an array. */
  predicate Pushable(d: Doc, field: string)
  {
    field !in d || d[field].Null? || d[field].Array?
  }

  function ApplyOp(d: Doc, op: Op): Doc
  {
    match op
    case Set(fs) => d + fs
    case Pull(f, cond) =>
      if f in d && d[f].Array? then d[f := Array(Without(d[f].items, cond))] else d
    case Push(f, v) =>
      if f !in d || d[f].Null? then d[f := Array([v])]
      else if d[f].Array? then d[f := Array(d[f].items + [v])]
      else d
  }

  // ---------------------------------------------------------------------------
  // Collection-level effects

  /** UpdateMany: the operator applied to every matching document, the rest as they were. */
  function UpdateDocs(docs: seq<Doc>, q: Query, op: Op): seq<Doc>
  {
    seq(|docs|, i requires 0 <= i < |docs| => if Matches(docs[i], q) then ApplyOp(docs[i], op) else docs[i])
  }

  /** Find: the matching documents, in collection order. */
  function Filter(docs: seq<Doc>, q: Query): seq<Doc>
  {
    if |docs| == 0 then []
    else (if Matches(docs[0], q) then [docs[0]] else []) + Filter(docs[1..], q)
  }

  /** DeleteOne: the first matching document removed. */
  function RemoveFirst(docs: seq<Doc>, q: Query): (r: seq<Doc>)
    ensures |r| == if exists i :: 0 <= i < |docs| && Matches(docs[i], q) then |docs| - 1 else |docs|
  {
    if |docs| == 0 then []
    else if Matches(docs[0], q) then docs[1..]
    else
      assert forall i :: 1 <= i < |docs| ==> docs[i] == docs[1..][i - 1];
      [docs[0]] + RemoveFirst(docs[1..], q)
  }

  /** Upsert by ID: the documents with that ID replaced by `body`, or `body` appended. */
  function Upserted(docs: seq<Doc>, id: ObjectId, body: Doc): seq<Doc>
  {
    if exists i :: 0 <= i < |docs| && IdOf(docs[i]) == id
    then seq(|docs|, i requires 0 <= i < |docs| => if IdOf(docs[i]) == id then body else docs[i])
    else docs + [body]
  }

  function Docs(db: DB, c: string): seq<Doc>
  {
    if c in db then db[c] else []
  }

  datatype Request =
    | UpdateMany(coll: string, query: Query, op: Op)
    | Find(coll: string, query: Query)
    | Upsert(coll: string, id: ObjectId, body: Doc)
    | DeleteOne(coll: string, query: Query)
    | Count(coll: string)

  /** The effect of a request that the store accepts. */
  function Apply(db: DB, req: Request): DB
  {
    match req
    case UpdateMany(c, q, op) => if c in db then db[c := UpdateDocs(db[c], q, op)] else db
    case Upsert(c, id, body) => db[c := Upserted(Docs(db, c), id, body)]
    case DeleteOne(c, q) => if c in db then db[c := RemoveFirst(db[c], q)] else db
    case Find(_, _) => db
    case Count(_) => db
  }

  datatype StoreState = StoreState(db: DB, log: seq<Request>)

  /** The error of the request at log position n: present exactly when that position is a fault. */
  function ErrorAt(n: nat, faults: set<nat>): Option<Error>
  {
    if n in faults then Some(StoreError(n)) else None
  }

  /** One request: logged, and applied unless its position is a fault. */
  function Step(st: StoreState, req: Request, faults: set<nat>): StoreState
  {
    StoreState(if |st.log| in faults then st.db else Apply(st.db, req), st.log + [req])
  }

  /** Requests issued one after the other, each independently of the others' outcome. */
  function Run(st: StoreState, reqs: seq<Request>, faults: set<nat>): StoreState
    decreases |reqs|
  {
    if |reqs| == 0 then st else Run(Step(st, reqs[0], faults), reqs[1..], faults)
  }

  /** No request among the next `n` fails. */
  predicate NoFaults(st: StoreState, n: nat, faults: set<nat>)
  {
    forall j :: |st.log| <= j < |st.log| + n ==> j !in faults
  }

  function FindResult(st: StoreState, faults: set<nat>, c: string, q: Query): Result<seq<Doc>>
  {
    if |st.log| in faults then Err(StoreError(|st.log|)) else Ok(Filter(Docs(st.db, c), q))
  }

  // ---------------------------------------------------------------------------
  // Facts about the operators and about Run

  lemma {:induction false} RunAppend(st: StoreState, a: seq<Request>, b: seq<Request>, faults: set<nat>)
    ensures Run(st, a + b, faults) == Run(Run(st, a, faults), b, faults)
    decreases |a|
  {
    if |a| == 0 {
      assert a + b == b;
    } else {
      assert (a + b)[0] == a[0];
      assert (a + b)[1..] == a[1..] + b;
      RunAppend(Step(st, a[0], faults), a[1..], b, faults);
    }
  }

  lemma RunOne(st: StoreState, r: Request, faults: set<nat>)
    ensures Run(st, [r], faults) == Step(st, r, faults)
  {
    assert [r][1..] == [];
  }

  lemma RunTwo(st: StoreState, r1: Request, r2: Request, faults: set<nat>)
    ensures Run(st, [r1, r2], faults) == Step(Step(st, r1, faults), r2, faults)
  {
    assert [r1, r2][1..] == [r2];
    RunOne(Step(st, r1, faults), r2, faults);
  }

  /** Run only appends to the log, exactly the requests issued. */
  lemma {:induction false} RunLog(st: StoreState, reqs: seq<Request>, faults: set<nat>)
    ensures Run(st, reqs, faults).log == st.log + reqs
    decreases |reqs|
  {
    if |reqs| > 0 {
      RunLog(Step(st, reqs[0], faults), reqs[1..], faults);
      assert st.log + [reqs[0]] + reqs[1..] == st.log + reqs;
    }
  }

  /** After a $pull nothing selected by the condition is left. */
  lemma {:induction false} WithoutSelectsNothing(items: seq<Value>, cond: Query)
    ensures CountSelected(Without(items, cond), cond) == 0
  {
    if |items| > 0 {
      WithoutSelectsNothing(items[1..], cond);
      var head := if Selected(items[0], cond) then [] else [items[0]];
      CountAppend(head, Without(items[1..], cond), cond);
    }
  }

  lemma {:induction false} CountAppend(a: seq<Value>, b: seq<Value>, cond: Query)
    ensures CountSelected(a + b, cond) == CountSelected(a, cond) + CountSelected(b, cond)
  {
    if |a| == 0 {
      assert a + b == b;
    } else {
      assert (a + b)[0] == a[0];
      assert (a + b)[1..] == a[1..] + b;
      CountAppend(a[1..], b, cond);
    }
  }

  /** A second $pull with the same condition removes nothing more. */
  lemma {:induction false} WithoutIdempotent(items: seq<Value>, cond: Query)
    ensures Without(Without(items, cond), cond) == Without(items, cond)
  {
    if |items| > 0 {
      WithoutIdempotent(items[1..], cond);
      var rest := Without(items[1..], cond);
      if !Selected(items[0], cond) {
        assert Without(items, cond) == [items[0]] + rest;
        assert ([items[0]] + rest)[1..] == rest;
      } else {
        assert Without(items, cond) == [] + rest == rest;
      }
    }
  }

  /** Entries not selected by the condition survive a $pull, in order. */
  lemma {:induction false} WithoutKeeps(items: seq<Value>, cond: Query, v: Value)
    requires v in items && !Selected(v, cond)
    ensures v in Without(items, cond)
  {
    if items[0] != v {
      WithoutKeeps(items[1..], cond, v);
    }
  }

  /** Changing only a field that the query does not mention keeps the match. */
  lemma MatchesIgnoresOtherField(d: Doc, f: string, v: Value, q: Query)
    requires f !in q
    ensures Matches(d[f := v], q) <==> Matches(d, q)
  {
  }

  /** A find returns nothing exactly when no document matches, and only matching documents. */
  lemma {:induction false} FilterFacts(docs: seq<Doc>, q: Query)
    ensures |Filter(docs, q)| == 0 <==> forall i :: 0 <= i < |docs| ==> !Matches(docs[i], q)
    ensures forall d :: d in Filter(docs, q) ==> d in docs && Matches(d, q)
  {
    if |docs| > 0 {
      FilterFacts(docs[1..], q);
      if !Matches(docs[0], q) && |Filter(docs, q)| == 0 {
        forall i | 0 <= i < |docs|
          ensures !Matches(docs[i], q)
        {
          if i > 0 {
            assert docs[i] == docs[1..][i - 1];
          }
        }
      }
      forall d | d in Filter(docs, q)
        ensures d in docs && Matches(d, q)
      {
        if d != docs[0] || !Matches(docs[0], q) {
          assert d in Filter(docs[1..], q);
        }
      }
    }
  }

  /** After an upsert the collection holds the body; it grows only when no document had the ID. */
  lemma UpsertedHolds(docs: seq<Doc>, id: ObjectId, body: Doc)
    ensures body in Upserted(docs, id, body)
    ensures |Upserted(docs, id, body)| == if exists i :: 0 <= i < |docs| && IdOf(docs[i]) == id then |docs| else |docs| + 1
  {
    if exists i :: 0 <= i < |docs| && IdOf(docs[i]) == id {
      var i :| 0 <= i < |docs| && IdOf(docs[i]) == id;
      assert Upserted(docs, id, body)[i] == body;
    } else {
      assert Upserted(docs, id, body)[|docs|] == body;
    }
  }

  // ---------------------------------------------------------------------------
  // The store object the core issues its requests to

  class Store {
    var db: DB
    var log: seq<Request>
    const faults: set<nat>

    function Snapshot(): StoreState
      reads this
    {
      StoreState(db, log)
    }

    constructor (db0: DB, faults0: set<nat>)
      ensures db == db0 && log == [] && faults == faults0
    {
      db, log, faults := db0, [], faults0;
    }

    method Issue(req: Request) returns (err: Option<Error>)
      modifies this
      ensures Snapshot() == Step(old(Snapshot()), req, faults)
      ensures err == ErrorAt(|old(log)|, faults)
    {
      err := ErrorAt(|log|, faults);
      if err.None? {
        db := Apply(db, req);
      }
      log := log + [req];
    }

    /** UpdateMany(ctx, query, update) */
    method UpdateMany(c: string, q: Query, op: Op) returns (err: Option<Error>)
      modifies this
      ensures Snapshot() == Step(old(Snapshot()), Request.UpdateMany(c, q, op), faults)
      ensures err == ErrorAt(|old(log)|, faults)
    {
      err := Issue(Request.UpdateMany(c, q, op));
    }

    /** Find(ctx, query), read to the end */
    method Find(c: string, q: Query) returns (r: Result<seq<Doc>>)
      modifies this
      ensures Snapshot() == Step(old(Snapshot()), Request.Find(c, q), faults)
      ensures r == FindResult(old(Snapshot()), faults, c, q)
    {
      var err := Issue(Request.Find(c, q));
      r := if err.Some? then Err(err.value) else Ok(Filter(Docs(db, c), q));
    }

    /** UpdateOne(ctx, {_id: id}, body) used as an upsert */
    method Upsert(c: string, id: ObjectId, body: Doc) returns (err: Option<Error>)
      modifies this
      ensures Snapshot() == Step(old(Snapshot()), Request.Upsert(c, id, body), faults)
      ensures err == ErrorAt(|old(log)|, faults)
    {
      err := Issue(Request.Upsert(c, id, body));
    }

    /** DeleteOne(ctx, query); the result is the number of documents deleted */
    method DeleteOne(c: string, q: Query) returns (r: Result<nat>)
      modifies this
      ensures Snapshot() == Step(old(Snapshot()), Request.DeleteOne(c, q), faults)
      ensures r == if |old(log)| in faults then Err(StoreError(|old(log)|))
                   else Ok(|Docs(old(db), c)| - |Docs(db, c)|)
    {
      var before := |Docs(db, c)|;
      var err := Issue(Request.DeleteOne(c, q));
      r := if err.Some? then Err(err.value) else Ok(before - |Docs(db, c)|);
    }

    /** CountDocuments(ctx, nil): the size of the whole collection */
    method CountDocuments(c: string) returns (r: Result<nat>)
      modifies this
      ensures Snapshot() == Step(old(Snapshot()), Request.Count(c), faults)
      ensures r == if |old(log)| in faults then Err(StoreError(|old(log)|)) else Ok(|Docs(old(db), c)|)
    {
      var err := Issue(Request.Count(c));
      r := if err.Some? then Err(err.value) else Ok(|Docs(db, c)|);
    }
  }
}
