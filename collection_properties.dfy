/** What Save, FindByID and DeleteDocument promise, proved about their models. */
module CollectionProperties {
  import opened Errors
  import opened Store
  import opened DocumentBases
  import opened Collections
  import Cascade
  import CascadeProperties

  // ---------------------------------------------------------------------------
  // Save

  /** Failed validation ends Save at once: nothing is stamped, written or cascaded, and
      BeforeSave is not called. */
  lemma SaveValidationFailure(coll: string, b: BaseState, body: Doc, caps: Capabilities, now: Time, newId: ObjectId,
                              st: StoreState, faults: set<nat>, schema: Cascade.Schema, fuel: nat)
    requires Invalid(caps)
    ensures SaveModel(coll, b, body, caps, now, newId, st, faults, schema, fuel)
         == SaveOutcome(b, st, [ValidateHook], Some(ValidationError(caps.validate.value)))
  {
  }

  /** A BeforeSave error is returned as it is, before anything changes. */
  lemma SaveBeforeSaveFailure(coll: string, b: BaseState, body: Doc, caps: Capabilities, now: Time, newId: ObjectId,
                              st: StoreState, faults: set<nat>, schema: Cascade.Schema, fuel: nat)
    requires !Invalid(caps) && caps.beforeSave.Fails?
    ensures var o := SaveModel(coll, b, body, caps, now, newId, st, faults, schema, fuel);
      o.base == b && o.st == st && o.err == Some(HookError(caps.beforeSave.message)) && AfterSaveHook !in o.calls
  {
  }

  /** A document that is not new but has no ID is not written: Save fails with the
      new-tracker error, only the cascade's owner updates and finds reach the store, and the
      document stays not new. */
  lemma SaveNotNewWithoutId(coll: string, b: BaseState, body: Doc, caps: Capabilities, now: Time, newId: ObjectId,
                            st: StoreState, faults: set<nat>, schema: Cascade.Schema, fuel: nat)
    requires PreSaveError(caps).None?
    requires caps.newTracker && b.existing && b.id == ZeroId
    ensures var o := SaveModel(coll, b, body, caps, now, newId, st, faults, schema, fuel);
      o.err == Some(NotNewWithoutId) && o.base.existing && o.base.id == ZeroId &&
      st.log <= o.st.log && forall i :: |st.log| <= i < |o.st.log| ==> !o.st.log[i].Upsert? && !o.st.log[i].DeleteOne?
  {
    CascadeProperties.SaveSpecAppends(st, faults, schema, coll, Cascade.Document(ZeroId, body), fuel);
  }

  /** Once PreSave passes and the ID check does, the document has a non-zero ID (a generated
      one exactly when it had none) and the first request is the upsert of the document under
      that ID; when the upsert is accepted the collection then holds the document. */
  lemma SaveAssignsIdAndUpserts(coll: string, b: BaseState, body: Doc, caps: Capabilities, now: Time, newId: ObjectId,
                                st: StoreState, faults: set<nat>, schema: Cascade.Schema, fuel: nat)
    requires newId != ZeroId
    requires PreSaveError(caps).None?
    requires NewnessOf(b, caps) || b.id != ZeroId
    ensures var o := SaveModel(coll, b, body, caps, now, newId, st, faults, schema, fuel);
      o.base.id == (if b.id == ZeroId then newId else b.id) && o.base.id != ZeroId &&
      |o.st.log| > |st.log| && o.st.log[|st.log|] == Upsert(coll, o.base.id, Encode(o.base, body)) &&
      (|st.log| !in faults ==> Encode(o.base, body) in Docs(Step(st, o.st.log[|st.log|], faults).db, coll))
  {
    var o := SaveModel(coll, b, body, caps, now, newId, st, faults, schema, fuel);
    var b1 := Stamped(b, caps, now);
    var b2 := if b1.id == ZeroId then b1.(id := newId) else b1;
    var up := Upsert(coll, b2.id, Encode(b2, body));
    var st1 := Step(st, up, faults);
    CascadeProperties.SaveSpecAppends(st1, faults, schema, coll, Cascade.Document(b2.id, body), fuel);
    assert Encode(o.base, body) == Encode(b2, body);
    assert o.st.log[|st.log|] == st1.log[|st.log|] == up;
    UpsertedHolds(Docs(st.db, coll), b2.id, Encode(b2, body));
  }

  /** CreatedAt is set only for a new document, UpdatedAt on every save past PreSave, and
      DeletedAt never. */
  lemma SaveTimestamps(coll: string, b: BaseState, body: Doc, caps: Capabilities, now: Time, newId: ObjectId,
                       st: StoreState, faults: set<nat>, schema: Cascade.Schema, fuel: nat)
    requires PreSaveError(caps).None?
    ensures var o := SaveModel(coll, b, body, caps, now, newId, st, faults, schema, fuel);
      o.base.createdAt == (if caps.timeCreated && NewnessOf(b, caps) then now else b.createdAt) &&
      o.base.updatedAt == (if caps.timeModified then now else b.updatedAt) &&
      o.base.deletedAt == b.deletedAt
  {
  }

  /** Save succeeds exactly when PreSave passes, the ID check passes, the upsert is accepted
      and AfterSave passes. */
  lemma SaveSucceedsIff(coll: string, b: BaseState, body: Doc, caps: Capabilities, now: Time, newId: ObjectId,
                        st: StoreState, faults: set<nat>, schema: Cascade.Schema, fuel: nat)
    ensures SaveModel(coll, b, body, caps, now, newId, st, faults, schema, fuel).err.None? <==>
      PreSaveError(caps).None? && (NewnessOf(b, caps) || b.id != ZeroId) && |st.log| !in faults && !caps.afterSave.Fails?
  {
  }

  /** The document stops being new only when the whole save succeeded and it tracks newness;
      any error leaves the flag as it was. */
  lemma SaveNewness(coll: string, b: BaseState, body: Doc, caps: Capabilities, now: Time, newId: ObjectId,
                    st: StoreState, faults: set<nat>, schema: Cascade.Schema, fuel: nat)
    ensures var o := SaveModel(coll, b, body, caps, now, newId, st, faults, schema, fuel);
      o.base.existing == (b.existing || (o.err.None? && caps.newTracker))
  {
  }

  /** Save calls the hooks in order: Validate, BeforeSave, AfterSave; AfterSave only after an
      accepted upsert. */
  lemma SaveHookOrder(coll: string, b: BaseState, body: Doc, caps: Capabilities, now: Time, newId: ObjectId,
                      st: StoreState, faults: set<nat>, schema: Cascade.Schema, fuel: nat)
    ensures var o := SaveModel(coll, b, body, caps, now, newId, st, faults, schema, fuel);
      PreSaveCalls(caps) <= o.calls &&
      (AfterSaveHook in o.calls ==>
         o.calls == PreSaveCalls(caps) + [AfterSaveHook] && |st.log| !in faults && PreSaveError(caps).None?)
  {
  }

  // ---------------------------------------------------------------------------
  // FindByID

  /** No document with the ID is DocumentNotFound, with the document left as it was. */
  lemma FindByIdNotFound(coll: string, id: ObjectId, b: BaseState, caps: Capabilities, st: StoreState, faults: set<nat>)
    requires |st.log| !in faults
    requires forall i :: 0 <= i < |Docs(st.db, coll)| ==> IdOf(Docs(st.db, coll)[i]) != id
    ensures var o := FindModel(coll, id, b, caps, st, faults);
      o.err == Some(DocumentNotFound) && o.base == b && o.calls == [] && o.found == None
  {
    var docs := Docs(st.db, coll);
    FilterFacts(docs, ById(id));
    forall i | 0 <= i < |docs|
      ensures !Matches(docs[i], ById(id))
    {
      assert "_id" in ById(id);
    }
  }

  /** A document with the ID is decoded into the base, AfterFind runs, and unless it fails
      the document is marked not new. */
  lemma FindByIdFound(coll: string, id: ObjectId, b: BaseState, caps: Capabilities, st: StoreState, faults: set<nat>, k: nat)
    requires |st.log| !in faults
    requires id != ZeroId && k < |Docs(st.db, coll)| && IdOf(Docs(st.db, coll)[k]) == id
    requires !caps.afterFind.Fails?
    ensures var o := FindModel(coll, id, b, caps, st, faults);
      o.err.None? && o.base.id == id && (caps.newTracker ==> o.base.existing) &&
      o.found.Some? && o.found.value in Docs(st.db, coll) && IdOf(o.found.value) == id
  {
    var docs := Docs(st.db, coll);
    FilterFacts(docs, ById(id));
    assert Matches(docs[k], ById(id));
    var first := Filter(docs, ById(id))[0];
    assert first in Filter(docs, ById(id));
  }

  /** A failing find is returned as it is and decodes nothing; a find never changes documents. */
  lemma FindByIdStoreError(coll: string, id: ObjectId, b: BaseState, caps: Capabilities, st: StoreState, faults: set<nat>)
    ensures FindModel(coll, id, b, caps, st, faults).st.db == st.db
    ensures |st.log| in faults ==>
      FindModel(coll, id, b, caps, st, faults).err == Some(StoreError(|st.log|)) &&
      FindModel(coll, id, b, caps, st, faults).base == b
  {
  }

  // ---------------------------------------------------------------------------
  // DeleteDocument

  /** A BeforeDelete error returns before any request. */
  lemma DeleteBeforeDeleteFailure(coll: string, b: BaseState, body: Doc, caps: Capabilities, st: StoreState,
                                  faults: set<nat>, schema: Cascade.Schema)
    requires caps.beforeDelete.Fails?
    ensures var o := DeleteModel(coll, b, body, caps, st, faults, schema);
      o.st == st && o.r == Err(HookError(caps.beforeDelete.message)) && o.calls == [BeforeDeleteHook]
  {
  }

  /** A failed delete returns before the cascade and AfterDelete: the delete is the only request. */
  lemma DeleteFailureSkipsCascade(coll: string, b: BaseState, body: Doc, caps: Capabilities, st: StoreState,
                                  faults: set<nat>, schema: Cascade.Schema)
    requires !caps.beforeDelete.Fails? && |st.log| in faults
    ensures var o := DeleteModel(coll, b, body, caps, st, faults, schema);
      o.st == StoreState(st.db, st.log + [DeleteOne(coll, ById(b.id))]) &&
      o.r == Err(StoreError(|st.log|)) && AfterDeleteHook !in o.calls
  {
  }

  /** A successful DeleteDocument reports one deleted document when the collection held one
      with the ID and none otherwise. */
  lemma DeleteCount(coll: string, b: BaseState, body: Doc, caps: Capabilities, st: StoreState,
                    faults: set<nat>, schema: Cascade.Schema)
    requires DeleteModel(coll, b, body, caps, st, faults, schema).r.Ok?
    ensures DeleteModel(coll, b, body, caps, st, faults, schema).r.value ==
      if exists i :: 0 <= i < |Docs(st.db, coll)| && Matches(Docs(st.db, coll)[i], ById(b.id)) then 1 else 0
  {
  }
}
