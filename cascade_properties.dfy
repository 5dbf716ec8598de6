/** What the cascade does to the owners' documents, proved from the store's axioms. */
module CascadeProperties {
  import opened Errors
  import opened Store
  import opened Cascade

  /** The target collection of a config in a store state. */
  function Targets(st: StoreState, conf: CascadeConfig): seq<Doc>
  {
    Docs(st.db, conf.collection)
  }

  /** A document that none of the config's queries selects. */
  predicate Unselected(d: Doc, conf: CascadeConfig)
  {
    !Matches(d, conf.query) && (|conf.oldQuery| == 0 || !Matches(d, conf.oldQuery))
  }

  // ---------------------------------------------------------------------------
  // One document under one operator

  lemma MatchesUnderSet(d: Doc, m: map<string, Value>, q: Query)
    requires m.Keys !! q.Keys
    ensures Matches(d + m, q) <==> Matches(d, q)
  {
  }

  /** A $pull changes only the pulled field, and leaves there the surviving entries. */
  lemma {:induction false} PullEffect(d: Doc, f: string, cond: Query, q: Query)
    requires f !in q
    ensures ItemsOf(ApplyOp(d, Pull(f, cond)), f) == Without(ItemsOf(d, f), cond)
    ensures Pushable(ApplyOp(d, Pull(f, cond)), f) == Pushable(d, f)
    ensures Matches(ApplyOp(d, Pull(f, cond)), q) == Matches(d, q)
  {
    if f in d && d[f].Array? {
      MatchesIgnoresOtherField(d, f, Array(Without(d[f].items, cond)), q);
    }
  }

  /** A $push on an absent, null or array field appends to the entries. */
  lemma PushEffect(d: Doc, f: string, v: Value)
    requires Pushable(d, f)
    ensures var d' := ApplyOp(d, Push(f, v));
      f in d' && d'[f].Array? && ItemsOf(d', f) == ItemsOf(d, f) + [v]
  {
  }

  // ---------------------------------------------------------------------------
  // Documents that no request selects

  /** Updates whose filters a document does not match leave it and every other collection alone. */
  lemma {:induction false} RunFrame(st: StoreState, reqs: seq<Request>, faults: set<nat>, c: string, i: nat)
    requires forall r :: r in reqs ==> r.UpdateMany? && r.coll == c
    requires i < |Docs(st.db, c)|
    requires forall r :: r in reqs ==> !Matches(Docs(st.db, c)[i], r.query)
    ensures var after := Run(st, reqs, faults).db;
      |Docs(after, c)| == |Docs(st.db, c)| && Docs(after, c)[i] == Docs(st.db, c)[i]
    ensures forall c' :: c' != c ==> Docs(Run(st, reqs, faults).db, c') == Docs(st.db, c')
    decreases |reqs|
  {
    if |reqs| > 0 {
      var st1 := Step(st, reqs[0], faults);
      assert reqs[0] in reqs;
      assert forall r :: r in reqs[1..] ==> r in reqs;
      RunFrame(st1, reqs[1..], faults, c, i);
    }
  }

  /** A save leaves alone every document that neither the query nor a non-empty old query
      selects, and every other collection. */
  lemma SaveFrame(st: StoreState, conf: CascadeConfig, faults: set<nat>, i: nat)
    requires i < |Targets(st, conf)|
    requires Unselected(Targets(st, conf)[i], conf)
    ensures var after := SaveWithConfig(st, conf, faults).0;
      |Targets(after, conf)| == |Targets(st, conf)| && Targets(after, conf)[i] == Targets(st, conf)[i]
    ensures forall c :: c != conf.collection ==> Docs(SaveWithConfig(st, conf, faults).0.db, c) == Docs(st.db, c)
  {
    var reqs := SaveRequests(conf);
    assert forall r :: r in reqs ==>
      r.UpdateMany? && r.coll == conf.collection &&
      (r.query == conf.query || (|conf.oldQuery| > 0 && r.query == conf.oldQuery));
    if |reqs| > 0 {
      RunFrame(st, reqs, faults, conf.collection, i);
    }
  }

  /** The same for a delete, which uses only the query. */
  lemma DeleteFrame(st: StoreState, conf: CascadeConfig, faults: set<nat>, i: nat)
    requires i < |Targets(st, conf)|
    requires !Matches(Targets(st, conf)[i], conf.query)
    ensures var after := DeleteWithConfig(st, conf, faults).0;
      |Targets(after, conf)| == |Targets(st, conf)| && Targets(after, conf)[i] == Targets(st, conf)[i]
    ensures forall c :: c != conf.collection ==> Docs(DeleteWithConfig(st, conf, faults).0.db, c) == Docs(st.db, c)
  {
    var reqs := DeleteRequests(conf);
    if |reqs| > 0 {
      RunFrame(st, reqs, faults, conf.collection, i);
    }
  }

  // ---------------------------------------------------------------------------
  // Relation types

  /** Any relation type other than REL_MANY and REL_ONE is an error and changes nothing. */
  lemma InvalidRelationTypeChangesNothing(st: StoreState, conf: CascadeConfig, faults: set<nat>)
    requires conf.relType != REL_MANY && conf.relType != REL_ONE
    ensures SaveWithConfig(st, conf, faults) == (st, Some(InvalidRelationType))
    ensures DeleteWithConfig(st, conf, faults) == (st, Some(InvalidRelationType))
  {
  }

  /** RemoveOnly makes no difference when there is no old query. */
  lemma RemoveOnlyNeedsOldQuery(conf: CascadeConfig, b: bool)
    requires |conf.oldQuery| == 0
    ensures SaveRequests(conf.(removeOnly := b)) == SaveRequests(conf)
  {
  }

  /** A valid config always issues at least one request, and the error it reports is that of
      its last request: with RemoveOnly the cleanup's, otherwise the write's. */
  lemma SaveReportsLastRequest(st: StoreState, conf: CascadeConfig, faults: set<nat>)
    requires conf.relType == REL_MANY || conf.relType == REL_ONE
    ensures |SaveRequests(conf)| == (if |conf.oldQuery| > 0 then 1 else 0)
                                  + (if StopsAfterCleanup(conf) then 0 else if conf.relType == REL_ONE then 1 else 2)
    ensures SaveWithConfig(st, conf, faults).1 == ErrorAt(|st.log| + |SaveRequests(conf)| - 1, faults)
    ensures SaveWithConfig(st, conf, faults).0.log == st.log + SaveRequests(conf)
  {
    RunLog(st, SaveRequests(conf), faults);
  }

  // ---------------------------------------------------------------------------
  // REL_ONE

  /** After a REL_ONE save whose write is accepted, every document that the query selects
      holds the embed: ThroughProp equal to Data, or else Data's fields at its root. */
  lemma OneSaveOwnersHoldEmbed(st: StoreState, conf: CascadeConfig, faults: set<nat>, i: nat)
    requires conf.relType == REL_ONE && !StopsAfterCleanup(conf)
    requires |st.log| + |SaveRequests(conf)| - 1 !in faults
    requires i < |Targets(SaveWithConfig(st, conf, faults).0, conf)|
    requires Matches(Targets(SaveWithConfig(st, conf, faults).0, conf)[i], conf.query)
    ensures Matches(Targets(SaveWithConfig(st, conf, faults).0, conf)[i], Written(conf))
  {
    var c := conf.collection;
    var cleanup := if |conf.oldQuery| > 0 then [UpdateMany(c, conf.oldQuery, Set(Cleared(conf)))] else [];
    var write := UpdateMany(c, conf.query, Set(Written(conf)));
    assert SaveRequests(conf) == cleanup + [write];
    RunAppend(st, cleanup, [write], faults);
    RunLog(st, cleanup, faults);
    var mid := Run(st, cleanup, faults);
    RunOne(mid, write, faults);
    assert c in mid.db;
  }

  /** A REL_ONE save that moves the association (non-empty old query, not RemoveOnly, both
      requests accepted, cleanup not touching the query's fields): the new owners hold the
      embed, the old owners that are not new owners have it cleared, the rest are unchanged. */
  lemma OneSaveMovesEmbed(st: StoreState, conf: CascadeConfig, faults: set<nat>, i: nat)
    requires conf.relType == REL_ONE && |conf.oldQuery| > 0 && !conf.removeOnly
    requires NoFaults(st, 2, faults)
    requires Cleared(conf).Keys !! conf.query.Keys
    requires i < |Targets(st, conf)|
    ensures var before := Targets(st, conf)[i];
      var after := Targets(SaveWithConfig(st, conf, faults).0, conf);
      i < |after| &&
      (Matches(before, conf.query) ==> Matches(after[i], Written(conf))) &&
      (Matches(before, conf.oldQuery) && !Matches(before, conf.query) ==> Matches(after[i], Cleared(conf))) &&
      (!Matches(before, conf.oldQuery) && !Matches(before, conf.query) ==> after[i] == before)
  {
    var c := conf.collection;
    var cleanup := UpdateMany(c, conf.oldQuery, Set(Cleared(conf)));
    var write := UpdateMany(c, conf.query, Set(Written(conf)));
    assert SaveRequests(conf) == [cleanup, write];
    RunTwo(st, cleanup, write, faults);
    var before := Targets(st, conf)[i];
    var mid := Step(st, cleanup, faults);
    assert c in mid.db;
    MatchesUnderSet(before, Cleared(conf), conf.query);
  }

  /** With RemoveOnly and an old query only the cleanup is issued: the old owners have the embed
      cleared and nothing is written. */
  lemma OneRemoveOnlyClears(st: StoreState, conf: CascadeConfig, faults: set<nat>, i: nat)
    requires conf.relType == REL_ONE && StopsAfterCleanup(conf)
    requires |st.log| !in faults
    requires i < |Targets(st, conf)|
    ensures SaveWithConfig(st, conf, faults).0.log == st.log + [UpdateMany(conf.collection, conf.oldQuery, Set(Cleared(conf)))]
    ensures var before := Targets(st, conf)[i];
      var after := Targets(SaveWithConfig(st, conf, faults).0, conf);
      i < |after| && after[i] == if Matches(before, conf.oldQuery) then before + Cleared(conf) else before
  {
    RunOne(st, UpdateMany(conf.collection, conf.oldQuery, Set(Cleared(conf))), faults);
  }

  // ---------------------------------------------------------------------------
  // REL_MANY

  /** A REL_MANY save (both the pull and the push accepted, the query not on ThroughProp)
      leaves at every owner the entries that do not match the reference, followed by Data;
      when Data itself matches the reference there is then exactly one matching entry. */
  lemma ManySaveReplacesEntry(st: StoreState, conf: CascadeConfig, faults: set<nat>, i: nat)
    requires conf.relType == REL_MANY && !StopsAfterCleanup(conf)
    requires NoFaults(st, |SaveRequests(conf)|, faults)
    requires conf.throughProp !in conf.query
    requires i < |Targets(st, conf)|
    requires Matches(Targets(st, conf)[i], conf.query) && Pushable(Targets(st, conf)[i], conf.throughProp)
    ensures var cond := ReferenceCondition(conf.referenceQuery);
      var after := Targets(SaveWithConfig(st, conf, faults).0, conf);
      i < |after| &&
      Matches(after[i], conf.query) && Pushable(after[i], conf.throughProp) &&
      ItemsOf(after[i], conf.throughProp) == Without(ItemsOf(Targets(st, conf)[i], conf.throughProp), cond) + [Map(conf.data)] &&
      (Selected(Map(conf.data), cond) ==> CountSelected(ItemsOf(after[i], conf.throughProp), cond) == 1)
  {
    var c := conf.collection;
    var tp := conf.throughProp;
    var cond := ReferenceCondition(conf.referenceQuery);
    var pull := UpdateMany(c, conf.query, PullSelf(conf));
    var push := UpdateMany(c, conf.query, Push(tp, Map(conf.data)));
    var cleanup := if |conf.oldQuery| > 0 then [UpdateMany(c, conf.oldQuery, PullSelf(conf))] else [];
    assert SaveRequests(conf) == cleanup + [pull, push];
    RunAppend(st, cleanup, [pull, push], faults);
    RunLog(st, cleanup, faults);
    var mid := Run(st, cleanup, faults);
    RunTwo(mid, pull, push, faults);
    var d0 := Targets(st, conf)[i];
    // after the cleanup at the old owners
    var d1: Doc;
    if |conf.oldQuery| > 0 {
      RunOne(st, cleanup[0], faults);
      d1 := if Matches(d0, conf.oldQuery) then ApplyOp(d0, PullSelf(conf)) else d0;
      assert Docs(mid.db, c)[i] == d1;
      PullEffect(d0, tp, cond, conf.query);
      WithoutIdempotent(ItemsOf(d0, tp), cond);
    } else {
      d1 := d0;
    }
    assert Docs(mid.db, c)[i] == d1;
    assert Matches(d1, conf.query) && Pushable(d1, tp);
    assert Without(ItemsOf(d1, tp), cond) == Without(ItemsOf(d0, tp), cond);
    // the pull at the current owners
    var d2 := ApplyOp(d1, PullSelf(conf));
    PullEffect(d1, tp, cond, conf.query);
    // the push
    var d3 := ApplyOp(d2, Push(tp, Map(conf.data)));
    PushEffect(d2, tp, Map(conf.data));
    MatchesIgnoresOtherField(d2, tp, d3[tp], conf.query);
    assert d3 == d2[tp := d3[tp]];
    assert Targets(SaveWithConfig(st, conf, faults).0, conf)[i] == d3;
    if Selected(Map(conf.data), cond) {
      WithoutSelectsNothing(ItemsOf(d0, tp), cond);
      CountAppend(Without(ItemsOf(d0, tp), cond), [Map(conf.data)], cond);
      assert CountSelected([Map(conf.data)], cond) == 1;
    }
  }

  /** Saving the same REL_MANY config twice still leaves exactly one entry matching the
      reference at every owner: the second save replaces the first one's entry. */
  lemma ManySaveTwiceOneEntry(st: StoreState, conf: CascadeConfig, faults: set<nat>, i: nat)
    requires conf.relType == REL_MANY && |conf.oldQuery| == 0
    requires NoFaults(st, 4, faults)
    requires conf.throughProp !in conf.query
    requires Selected(Map(conf.data), ReferenceCondition(conf.referenceQuery))
    requires i < |Targets(st, conf)|
    requires Matches(Targets(st, conf)[i], conf.query) && Pushable(Targets(st, conf)[i], conf.throughProp)
    ensures var once := SaveWithConfig(st, conf, faults).0;
      var twice := SaveWithConfig(once, conf, faults).0;
      i < |Targets(twice, conf)| &&
      CountSelected(ItemsOf(Targets(twice, conf)[i], conf.throughProp), ReferenceCondition(conf.referenceQuery)) == 1
  {
    assert |SaveRequests(conf)| == 2;
    ManySaveReplacesEntry(st, conf, faults, i);
    var once := SaveWithConfig(st, conf, faults).0;
    RunLog(st, SaveRequests(conf), faults);
    assert |once.log| == |st.log| + 2;
    ManySaveReplacesEntry(once, conf, faults, i);
  }

  /** A REL_MANY save that moves the association (non-empty old query, not RemoveOnly, all
      three requests accepted, the query not on ThroughProp): an old owner that is not a
      current owner loses exactly the entries matching the reference and nothing else. */
  lemma ManySaveMovesEntry(st: StoreState, conf: CascadeConfig, faults: set<nat>, i: nat)
    requires conf.relType == REL_MANY && |conf.oldQuery| > 0 && !conf.removeOnly
    requires NoFaults(st, 3, faults)
    requires conf.throughProp !in conf.query
    requires i < |Targets(st, conf)|
    requires Matches(Targets(st, conf)[i], conf.oldQuery) && !Matches(Targets(st, conf)[i], conf.query)
    ensures var cond := ReferenceCondition(conf.referenceQuery);
      var before := Targets(st, conf)[i];
      var after := Targets(SaveWithConfig(st, conf, faults).0, conf);
      i < |after| &&
      after[i] == ApplyOp(before, PullSelf(conf)) &&
      ItemsOf(after[i], conf.throughProp) == Without(ItemsOf(before, conf.throughProp), cond) &&
      CountSelected(ItemsOf(after[i], conf.throughProp), cond) == 0
  {
    var c := conf.collection;
    var tp := conf.throughProp;
    var cond := ReferenceCondition(conf.referenceQuery);
    var cleanup := UpdateMany(c, conf.oldQuery, PullSelf(conf));
    var pull := UpdateMany(c, conf.query, PullSelf(conf));
    var push := UpdateMany(c, conf.query, Push(tp, Map(conf.data)));
    assert SaveRequests(conf) == [cleanup] + [pull, push];
    RunAppend(st, [cleanup], [pull, push], faults);
    RunOne(st, cleanup, faults);
    var mid := Step(st, cleanup, faults);
    RunTwo(mid, pull, push, faults);
    var d0 := Targets(st, conf)[i];
    var d1 := ApplyOp(d0, PullSelf(conf));
    assert Docs(mid.db, c)[i] == d1;
    PullEffect(d0, tp, cond, conf.query);
    assert !Matches(d1, conf.query);
    assert Targets(SaveWithConfig(st, conf, faults).0, conf)[i] == d1;
    WithoutSelectsNothing(ItemsOf(d0, tp), cond);
  }

  /** With RemoveOnly and an old query a REL_MANY save issues only the pull at the old owners:
      each of them loses exactly the entries matching the reference, and every other document
      is unchanged. */
  lemma ManyRemoveOnlyPulls(st: StoreState, conf: CascadeConfig, faults: set<nat>, i: nat)
    requires conf.relType == REL_MANY && StopsAfterCleanup(conf)
    requires |st.log| !in faults
    requires i < |Targets(st, conf)|
    ensures SaveWithConfig(st, conf, faults).0.log == st.log + [UpdateMany(conf.collection, conf.oldQuery, PullSelf(conf))]
    ensures var cond := ReferenceCondition(conf.referenceQuery);
      var before := Targets(st, conf)[i];
      var after := Targets(SaveWithConfig(st, conf, faults).0, conf);
      i < |after| &&
      after[i] == (if Matches(before, conf.oldQuery) then ApplyOp(before, PullSelf(conf)) else before) &&
      (Matches(before, conf.oldQuery) ==>
         ItemsOf(after[i], conf.throughProp) == Without(ItemsOf(before, conf.throughProp), cond) &&
         CountSelected(ItemsOf(after[i], conf.throughProp), cond) == 0)
  {
    var cond := ReferenceCondition(conf.referenceQuery);
    var d0 := Targets(st, conf)[i];
    RunOne(st, UpdateMany(conf.collection, conf.oldQuery, PullSelf(conf)), faults);
    var empty: Query := map[];
    PullEffect(d0, conf.throughProp, cond, empty);
    WithoutSelectsNothing(ItemsOf(d0, conf.throughProp), cond);
  }

  // ---------------------------------------------------------------------------
  // Deletes

  /** A REL_ONE delete clears the embed (ThroughProp, or else each of Properties) at every owner. */
  lemma DeleteOneClearsOwners(st: StoreState, conf: CascadeConfig, faults: set<nat>, i: nat)
    requires conf.relType == REL_ONE
    requires |st.log| !in faults
    requires i < |Targets(st, conf)|
    ensures var before := Targets(st, conf)[i];
      var after := Targets(DeleteWithConfig(st, conf, faults).0, conf);
      i < |after| && after[i] == (if Matches(before, conf.query) then before + Cleared(conf) else before)
      && (Matches(before, conf.query) ==> Matches(after[i], Cleared(conf)))
  {
    RunOne(st, UpdateMany(conf.collection, conf.query, Set(Cleared(conf))), faults);
  }

  /** A REL_MANY delete removes from every owner's array exactly the entries matching the
      reference, so none is left. */
  lemma DeleteManyPullsSelf(st: StoreState, conf: CascadeConfig, faults: set<nat>, i: nat)
    requires conf.relType == REL_MANY
    requires |st.log| !in faults
    requires conf.throughProp !in conf.query
    requires i < |Targets(st, conf)|
    requires Matches(Targets(st, conf)[i], conf.query)
    ensures var cond := ReferenceCondition(conf.referenceQuery);
      var after := Targets(DeleteWithConfig(st, conf, faults).0, conf);
      i < |after| &&
      ItemsOf(after[i], conf.throughProp) == Without(ItemsOf(Targets(st, conf)[i], conf.throughProp), cond) &&
      CountSelected(ItemsOf(after[i], conf.throughProp), cond) == 0
  {
    var cond := ReferenceCondition(conf.referenceQuery);
    RunOne(st, UpdateMany(conf.collection, conf.query, PullSelf(conf)), faults);
    PullEffect(Targets(st, conf)[i], conf.throughProp, cond, conf.query);
    WithoutSelectsNothing(ItemsOf(Targets(st, conf)[i], conf.throughProp), cond);
  }

  // ---------------------------------------------------------------------------
  // Whole-document cascades

  /** The Nest step: a failed find is returned; otherwise, when the instance's AfterFind
      fails, the owners' cursor delivers nothing more and only the find is issued, with no
      error; when it does not fail, the instance is cascaded once per owner found. */
  lemma NestFindOutcomes(st: StoreState, faults: set<nat>, schema: Schema, conf: CascadeConfig, fuel: nat)
    requires fuel > 0
    ensures var find := Find(conf.collection, conf.query);
      var st1 := Step(st, find, faults);
      var r := NestSave(st, faults, schema, conf, fuel);
      (|st.log| in faults ==> r == (st1, Some(StoreError(|st.log|)))) &&
      (|st.log| !in faults && conf.instanceFindFails ==> r == (st1, None)) &&
      (|st.log| !in faults && !conf.instanceFindFails ==>
         r == Nested(st1, faults, schema, conf.collection, conf.instance, |Filter(Docs(st.db, conf.collection), conf.query)|, fuel - 1))
  {
  }

  /** A document without cascade configs: neither a save nor a delete issues any request. */
  lemma NonCascadingDocumentIsNoOp(st: StoreState, faults: set<nat>, schema: Schema, coll: string, doc: Document, fuel: nat)
    requires schema(coll, doc).None?
    ensures SaveSpec(st, faults, schema, coll, doc, fuel) == (st, None)
    ensures DeleteSpec(st, faults, schema, coll, doc) == (st, None)
  {
  }

  /** Save defaults an empty ReferenceQuery to the document's own ID under _id and leaves a
      non-empty one as it is. */
  lemma SaveDefaultsReference(conf: CascadeConfig, doc: Document)
    ensures |conf.referenceQuery| > 0 ==> SaveReference(conf, doc) == conf
    ensures |conf.referenceQuery| == 0 ==>
      SaveReference(conf, doc) == conf.(referenceQuery := SaveReference(conf, doc).referenceQuery) &&
      ReferenceCondition(SaveReference(conf, doc).referenceQuery) == map["_id" := Id(doc.id)]
  {
    var one := [ReferenceField("_id", Id(doc.id))];
    assert one[..0] == [];
  }

  /** Delete defaults an empty ReferenceQuery to the value of the field named Id, and aborts
      exactly when there is no such field. */
  lemma DeleteDefaultsReference(conf: CascadeConfig, doc: Document)
    ensures DeleteReference(conf, doc).Err? <==> |conf.referenceQuery| == 0 && "Id" !in doc.fields
    ensures |conf.referenceQuery| > 0 ==> DeleteReference(conf, doc) == Ok(conf)
    ensures |conf.referenceQuery| == 0 && "Id" in doc.fields ==>
      ReferenceCondition(DeleteReference(conf, doc).value.referenceQuery) == map["_id" := doc.fields["Id"]]
  {
    var one := [ReferenceField("_id", if "Id" in doc.fields then doc.fields["Id"] else Null)];
    assert one[..0] == [];
  }

  /** True when every config's reference can be defaulted, so that no config aborts the delete. */
  predicate Resolvable(configs: seq<CascadeConfig>, doc: Document)
  {
    forall i :: 0 <= i < |configs| ==> DeleteReference(configs[i], doc).Ok?
  }

  /** The requests of every config in order, after defaulting their references. */
  function AllDeleteRequests(configs: seq<CascadeConfig>, doc: Document): seq<Request>
    requires Resolvable(configs, doc)
    decreases |configs|
  {
    if |configs| == 0 then []
    else AllDeleteRequests(configs[..|configs| - 1], doc) + DeleteRequests(DeleteReference(configs[|configs| - 1], doc).value)
  }

  /** When every reference resolves, a cascaded delete issues the requests of every config,
      whatever errors the store reports, and reports none itself. */
  lemma {:induction false} DeleteRunsEveryConfig(st: StoreState, faults: set<nat>, doc: Document, configs: seq<CascadeConfig>)
    requires Resolvable(configs, doc)
    ensures ConfigsDelete(st, faults, doc, configs) == (Run(st, AllDeleteRequests(configs, doc), faults), None)
    decreases |configs|
  {
    if |configs| > 0 {
      var init := configs[..|configs| - 1];
      assert Resolvable(init, doc) by {
        forall i | 0 <= i < |init|
          ensures DeleteReference(init[i], doc).Ok?
        {
          assert init[i] == configs[i];
        }
      }
      DeleteRunsEveryConfig(st, faults, doc, init);
      var conf := DeleteReference(configs[|configs| - 1], doc).value;
      RunAppend(st, AllDeleteRequests(init, doc), DeleteRequests(conf), faults);
    }
  }

  /** The requests a cascade issues: updates of owners and finds of owners, never an upsert
      or a delete. */
  predicate CascadeRequest(r: Request)
  {
    r.UpdateMany? || r.Find?
  }

  /** `st1` extends `st0`'s log with cascade requests only. */
  predicate AppendsCascadeRequests(st0: StoreState, st1: StoreState)
  {
    st0.log <= st1.log && forall i :: |st0.log| <= i < |st1.log| ==> CascadeRequest(st1.log[i])
  }

  lemma AppendsTransitive(st0: StoreState, st1: StoreState, st2: StoreState)
    requires AppendsCascadeRequests(st0, st1) && AppendsCascadeRequests(st1, st2)
    ensures AppendsCascadeRequests(st0, st2)
  {
    forall i | |st0.log| <= i < |st2.log|
      ensures CascadeRequest(st2.log[i])
    {
      if i < |st1.log| {
        assert st2.log[i] == st1.log[i];
      }
    }
  }

  lemma ConfigAppendsUpdates(st: StoreState, conf: CascadeConfig, faults: set<nat>)
    ensures AppendsCascadeRequests(st, SaveWithConfig(st, conf, faults).0)
  {
    var reqs := SaveRequests(conf);
    RunLog(st, reqs, faults);
    var st1 := SaveWithConfig(st, conf, faults).0;
    forall i | |st.log| <= i < |st1.log|
      ensures CascadeRequest(st1.log[i])
    {
      assert st1.log[i] == reqs[i - |st.log|];
    }
  }

  /** A cascaded save only appends to the store's log, and only owner updates and finds:
      what earlier configs did stays done, and it never upserts or deletes a document. */
  lemma {:induction false} SaveSpecAppends(st: StoreState, faults: set<nat>, schema: Schema, coll: string, doc: Document, fuel: nat)
    ensures AppendsCascadeRequests(st, SaveSpec(st, faults, schema, coll, doc, fuel).0)
    decreases fuel, 3, 0
  {
    match schema(coll, doc)
    case None =>
    case Some(configs) => ConfigsSaveAppends(st, faults, schema, doc, configs, fuel);
  }

  lemma {:induction false} ConfigsSaveAppends(st: StoreState, faults: set<nat>, schema: Schema, doc: Document,
                                              configs: seq<CascadeConfig>, fuel: nat)
    ensures AppendsCascadeRequests(st, ConfigsSave(st, faults, schema, doc, configs, fuel).0)
    decreases fuel, 2, |configs|
  {
    if |configs| > 0 {
      ConfigsSaveAppends(st, faults, schema, doc, configs[..|configs| - 1], fuel);
      var (st1, err1) := ConfigsSave(st, faults, schema, doc, configs[..|configs| - 1], fuel);
      if err1.None? {
        ConfigSaveAppends(st1, faults, schema, doc, configs[|configs| - 1], fuel);
        AppendsTransitive(st, st1, ConfigsSave(st, faults, schema, doc, configs, fuel).0);
      }
    }
  }

  lemma {:induction false} ConfigSaveAppends(st: StoreState, faults: set<nat>, schema: Schema, doc: Document,
                                             conf: CascadeConfig, fuel: nat)
    ensures AppendsCascadeRequests(st, ConfigSave(st, faults, schema, doc, conf, fuel).0)
    decreases fuel, 1, 0
  {
    var conf' := SaveReference(conf, doc);
    ConfigAppendsUpdates(st, conf', faults);
    var (st1, err1) := SaveWithConfig(st, conf', faults);
    if err1.None? && conf'.nest {
      NestSaveAppends(st1, faults, schema, conf', fuel);
      AppendsTransitive(st, st1, ConfigSave(st, faults, schema, doc, conf, fuel).0);
    }
  }

  lemma {:induction false} NestSaveAppends(st: StoreState, faults: set<nat>, schema: Schema, conf: CascadeConfig, fuel: nat)
    ensures AppendsCascadeRequests(st, NestSave(st, faults, schema, conf, fuel).0)
    decreases fuel, 0, 0
  {
    if fuel > 0 {
      var st1 := Step(st, Find(conf.collection, conf.query), faults);
      match FindResult(st, faults, conf.collection, conf.query)
      case Err(_) =>
      case Ok(owners) =>
        NestedAppends(st1, faults, schema, conf.collection, conf.instance, |owners|, fuel - 1);
        AppendsTransitive(st, st1, NestSave(st, faults, schema, conf, fuel).0);
    }
  }

  lemma {:induction false} NestedAppends(st: StoreState, faults: set<nat>, schema: Schema, coll: string,
                                         instance: Document, n: nat, fuel: nat)
    ensures AppendsCascadeRequests(st, Nested(st, faults, schema, coll, instance, n, fuel).0)
    decreases fuel, 4, n
  {
    if n > 0 {
      NestedAppends(st, faults, schema, coll, instance, n - 1, fuel);
      var (st1, err1) := Nested(st, faults, schema, coll, instance, n - 1, fuel);
      if err1.None? {
        SaveSpecAppends(st1, faults, schema, coll, instance, fuel);
        AppendsTransitive(st, st1, Nested(st, faults, schema, coll, instance, n, fuel).0);
      }
    }
  }
}
