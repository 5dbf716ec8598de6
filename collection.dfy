/** Collection: saving, finding and deleting one document, with the document's optional
    hooks and trackers around the store requests, and the cascades run after the primary
    write. */
module Collections {
  import opened Errors
  import opened Store
  import opened DocumentBases
  import Text
  import Cascade

  /** The hooks a document may implement, in the order in which a collection calls them. */
  datatype HookName = ValidateHook | BeforeSaveHook | AfterSaveHook | BeforeDeleteHook | AfterDeleteHook | AfterFindHook

  /** A hook the document does not implement, one that returns nil, or one that returns an error. */
  datatype Hook = Absent | Passes | Fails(message: string)

  /** What the document implements: its hooks (Validate's result when it has one) and whether
      it tracks newness and its created and updated times. */
  datatype Capabilities = Capabilities(
    validate: Option<seq<Error>>,
    beforeSave: Hook,
    afterSave: Hook,
    beforeDelete: Hook,
    afterDelete: Hook,
    afterFind: Hook,
    newTracker: bool,
    timeCreated: bool,
    timeModified: bool)

  function Called(name: HookName, h: Hook): seq<HookName>
  {
    if h.Absent? then [] else [name]
  }

  function HookOutcome(h: Hook): Option<Error>
  {
    if h.Fails? then Some(HookError(h.message)) else None
  }

  // ---------------------------------------------------------------------------
  // ValidationError.Error

  /** A single failure reads as its own message in parentheses; no failures as empty ones. */
  lemma ValidationMessageShape(errors: seq<Error>)
    ensures |errors| == 0 ==> Message(ValidationError(errors)) == "Validation failed. ()"
    ensures |errors| == 1 ==> Message(ValidationError(errors)) == "Validation failed. (" + Message(errors[0]) + ")"
    ensures |errors| >= 2 ==>
      (Message(ValidationError(errors)) ==
       "Validation failed. (" + Message(errors[0]) + ", " +
       Text.Join(seq(|errors| - 1, i requires 0 <= i < |errors| - 1 => Message(errors[i + 1])), ", ") + ")")
  {
    var msgs := seq(|errors|, i requires 0 <= i < |errors| => Message(errors[i]));
    if |errors| >= 2 {
      assert msgs[1..] == seq(|errors| - 1, i requires 0 <= i < |errors| - 1 => Message(errors[i + 1]));
    }
  }

  /** ValidationError.Error: each error's message, in order, joined by ", " inside
      "Validation failed. (...)". */
  method ValidationErrorText(errors: seq<Error>) returns (text: string)
    ensures text == Message(ValidationError(errors))
  {
    var errs := new string[|errors|];
    for i := 0 to |errors|
      invariant forall j :: 0 <= j < i ==> errs[j] == Message(errors[j])
    {
      errs[i] := Message(errors[i]);
    }
    assert errs[..] == seq(|errors|, i requires 0 <= i < |errors| => Message(errors[i]));
    text := "Validation failed. (" + Text.Join(errs[..], ", ") + ")";
  }

  // ---------------------------------------------------------------------------
  // PreSave

  /** Validation failed: the document has a Validate hook and it returned errors. */
  predicate Invalid(caps: Capabilities)
  {
    caps.validate.Some? && |caps.validate.value| > 0
  }

  /** The hooks PreSave calls: Validate, then BeforeSave unless validation failed. */
  function PreSaveCalls(caps: Capabilities): seq<HookName>
  {
    (if caps.validate.Some? then [ValidateHook] else [])
    + (if Invalid(caps) then [] else Called(BeforeSaveHook, caps.beforeSave))
  }

  function PreSaveError(caps: Capabilities): Option<Error>
  {
    if Invalid(caps) then Some(ValidationError(caps.validate.value)) else HookOutcome(caps.beforeSave)
  }

  /** Validation comes first: failed validation is reported and BeforeSave never runs; with
      validation passing, PreSave reports exactly BeforeSave's error. */
  lemma PreSaveOrdering(caps: Capabilities)
    ensures Invalid(caps) ==>
      PreSaveError(caps) == Some(ValidationError(caps.validate.value)) && BeforeSaveHook !in PreSaveCalls(caps)
    ensures !Invalid(caps) ==>
      PreSaveError(caps) == HookOutcome(caps.beforeSave) &&
      (BeforeSaveHook in PreSaveCalls(caps) <==> !caps.beforeSave.Absent?)
    ensures PreSaveError(caps).None? <==> !Invalid(caps) && !caps.beforeSave.Fails?
  {
  }

  // ---------------------------------------------------------------------------
  // Save, FindByID and DeleteDocument as functions of the state they start from

  /** The document as it is written: its own fields with the base fields under their bson names. */
  function Encode(b: BaseState, body: Doc): Doc
  {
    body["_id" := Id(b.id)]["created_at" := Int(b.createdAt)]["updated_at" := Int(b.updatedAt)]["deleted_at" := Int(b.deletedAt)]
  }

  /** The query {_id: id}. */
  function ById(id: ObjectId): Query
  {
    map["_id" := Id(id)]
  }

  datatype SaveOutcome = SaveOutcome(base: BaseState, st: StoreState, calls: seq<HookName>, err: Option<Error>)

  /** Newness: what the tracker says, and new when the document has no tracker. */
  function NewnessOf(b: BaseState, caps: Capabilities): bool
  {
    !caps.newTracker || !b.existing
  }

  /** The timestamps Save sets: created only for a new document, updated always. */
  function Stamped(b: BaseState, caps: Capabilities, now: Time): BaseState
  {
    var isNew := NewnessOf(b, caps);
    b.(createdAt := if caps.timeCreated && isNew then now else b.createdAt,
       updatedAt := if caps.timeModified then now else b.updatedAt)
  }

  /** Save. The cascade, which the source launches in the background, runs here after the
      primary write (or, when the ID check fails, in its place), and its outcome is dropped. */
  function SaveModel(coll: string, b: BaseState, body: Doc, caps: Capabilities, now: Time, newId: ObjectId,
                     st: StoreState, faults: set<nat>, schema: Cascade.Schema, fuel: nat): SaveOutcome
  {
    var pre := PreSaveError(caps);
    if pre.Some? then SaveOutcome(b, st, PreSaveCalls(caps), pre)
    else
      var o := SaveStampedModel(coll, Stamped(b, caps, now), NewnessOf(b, caps), body, caps, newId, st, faults, schema, fuel);
      o.(calls := PreSaveCalls(caps) + o.calls)
  }

  /** Save after PreSave and the timestamps: the ID check and the ID. */
  function SaveStampedModel(coll: string, b1: BaseState, isNew: bool, body: Doc, caps: Capabilities, newId: ObjectId,
                            st: StoreState, faults: set<nat>, schema: Cascade.Schema, fuel: nat): SaveOutcome
  {
    if !isNew && b1.id == ZeroId then
      var st1 := Cascade.SaveSpec(st, faults, schema, coll, Cascade.Document(b1.id, body), fuel).0;
      SaveOutcome(b1, st1, [], Some(NotNewWithoutId))
    else
      PersistModel(coll, if b1.id == ZeroId then b1.(id := newId) else b1, body, caps, st, faults, schema, fuel)
  }

  /** Save once the document has its ID: the upsert, the cascade, AfterSave, not new. */
  function PersistModel(coll: string, b2: BaseState, body: Doc, caps: Capabilities,
                        st: StoreState, faults: set<nat>, schema: Cascade.Schema, fuel: nat): SaveOutcome
  {
    var st1 := Step(st, Upsert(coll, b2.id, Encode(b2, body)), faults);
    var st2 := Cascade.SaveSpec(st1, faults, schema, coll, Cascade.Document(b2.id, body), fuel).0;
    if |st.log| in faults then SaveOutcome(b2, st2, [], Some(StoreError(|st.log|)))
    else
      var calls := Called(AfterSaveHook, caps.afterSave);
      if caps.afterSave.Fails? then SaveOutcome(b2, st2, calls, HookOutcome(caps.afterSave))
      else SaveOutcome(b2.(existing := caps.newTracker || b2.existing), st2, calls, None)
  }

  datatype FindOutcome = FindOutcome(base: BaseState, st: StoreState, calls: seq<HookName>, err: Option<Error>, found: Option<Doc>)

  /** A stored time field, or the current value when the field is absent or not a time. */
  function TimeField(d: Doc, name: string, current: Time): Time
  {
    if name in d && d[name].Int? then d[name].i else current
  }

  /** Decoding a stored document into the base: the ID and the times it holds. */
  function Decoded(b: BaseState, d: Doc): BaseState
  {
    b.(id := IdOf(d),
       createdAt := TimeField(d, "created_at", b.createdAt),
       updatedAt := TimeField(d, "updated_at", b.updatedAt),
       deletedAt := TimeField(d, "deleted_at", b.deletedAt))
  }

  /** FindByID: the first document with that _id decoded, then AfterFind, then not new. */
  function FindModel(coll: string, id: ObjectId, b: BaseState, caps: Capabilities, st: StoreState, faults: set<nat>): FindOutcome
  {
    var st1 := Step(st, Find(coll, ById(id)), faults);
    match FindResult(st, faults, coll, ById(id))
    case Err(e) => FindOutcome(b, st1, [], Some(e), None)
    case Ok(docs) =>
      if |docs| == 0 then FindOutcome(b, st1, [], Some(DocumentNotFound), None)
      else
        var b1 := Decoded(b, docs[0]);
        var calls := Called(AfterFindHook, caps.afterFind);
        if caps.afterFind.Fails? then FindOutcome(b1, st1, calls, HookOutcome(caps.afterFind), Some(docs[0]))
        else FindOutcome(b1.(existing := caps.newTracker || b1.existing), st1, calls, None, Some(docs[0]))
  }

  datatype DeleteOutcome = DeleteOutcome(st: StoreState, calls: seq<HookName>, r: Result<nat>)

  /** DeleteDocument: BeforeDelete, the delete by _id, the cascade (its outcome dropped), AfterDelete. */
  function DeleteModel(coll: string, b: BaseState, body: Doc, caps: Capabilities, st: StoreState, faults: set<nat>,
                       schema: Cascade.Schema): DeleteOutcome
  {
    if caps.beforeDelete.Fails? then DeleteOutcome(st, [BeforeDeleteHook], Err(HookError(caps.beforeDelete.message)))
    else
      var calls0 := Called(BeforeDeleteHook, caps.beforeDelete);
      var st1 := Step(st, DeleteOne(coll, ById(b.id)), faults);
      if |st.log| in faults then DeleteOutcome(st1, calls0, Err(StoreError(|st.log|)))
      else
        var st2 := Cascade.DeleteSpec(st1, faults, schema, coll, Cascade.Document(b.id, body)).0;
        var calls := calls0 + Called(AfterDeleteHook, caps.afterDelete);
        if caps.afterDelete.Fails? then DeleteOutcome(st2, calls, Err(HookError(caps.afterDelete.message)))
        else DeleteOutcome(st2, calls, Ok(|Docs(st.db, coll)| - |Docs(st1.db, coll)|))
  }

  // ---------------------------------------------------------------------------
  // The collection object

  /** Save's newness check and timestamps, applied to the document. */
  method Stamp(doc: DocumentBase, caps: Capabilities, now: Time) returns (isNew: bool)
    modifies doc
    ensures isNew == NewnessOf(old(doc.State()), caps)
    ensures doc.State() == Stamped(old(doc.State()), caps, now)
  {
    isNew := true;
    if caps.newTracker {
      isNew := doc.IsNew();
    }
    if caps.timeCreated && isNew {
      doc.SetCreatedAt(now);
    }
    if caps.timeModified {
      doc.SetUpdatedAt(now);
    }
  }

  class Collection {
    const name: string
    const store: Store
    /** The hooks called so far, in order. */
    var hookCalls: seq<HookName>

    constructor (name0: string, store0: Store)
      ensures name == name0 && store == store0 && hookCalls == []
    {
      name, store, hookCalls := name0, store0, [];
    }

    /** Runs a hook the document implements and records the call. */
    method CallHook(h: HookName, hook: Hook) returns (err: Option<Error>)
      modifies this`hookCalls
      ensures hookCalls == old(hookCalls) + Called(h, hook)
      ensures err == HookOutcome(hook)
    {
      if !hook.Absent? {
        hookCalls := hookCalls + [h];
      }
      err := HookOutcome(hook);
    }

    method PreSave(caps: Capabilities) returns (err: Option<Error>)
      modifies this`hookCalls
      ensures hookCalls == old(hookCalls) + PreSaveCalls(caps)
      ensures err == PreSaveError(caps)
    {
      if caps.validate.Some? {
        hookCalls := hookCalls + [ValidateHook];
        var errs := caps.validate.value;
        if |errs| > 0 {
          return Some(ValidationError(errs));
        }
      }
      err := CallHook(BeforeSaveHook, caps.beforeSave);
    }

    /** Save of `doc`, whose fields other than the base ones are `body`; `now` is the clock's
        reading and `newId` the ID the driver would generate. */
    method Save(doc: DocumentBase, body: Doc, caps: Capabilities, now: Time, newId: ObjectId,
                schema: Cascade.Schema, fuel: nat) returns (err: Option<Error>)
      requires newId != ZeroId
      modifies this`hookCalls, doc, store
      ensures var o := SaveModel(name, old(doc.State()), body, caps, now, newId, old(store.Snapshot()), store.faults, schema, fuel);
        doc.State() == o.base && store.Snapshot() == o.st && hookCalls == old(hookCalls) + o.calls && err == o.err
    {
      err := PreSave(caps);
      if err.Some? {
        return;
      }
      var isNew := Stamp(doc, caps, now);
      err := SaveStamped(doc, isNew, body, caps, newId, schema, fuel);
    }

    method SaveStamped(doc: DocumentBase, isNew: bool, body: Doc, caps: Capabilities, newId: ObjectId,
                       schema: Cascade.Schema, fuel: nat) returns (err: Option<Error>)
      requires newId != ZeroId
      modifies this`hookCalls, doc, store
      ensures var o := SaveStampedModel(name, old(doc.State()), isNew, body, caps, newId, old(store.Snapshot()), store.faults, schema, fuel);
        doc.State() == o.base && store.Snapshot() == o.st && hookCalls == old(hookCalls) + o.calls && err == o.err
    {
      var id := doc.GetID();
      if !isNew && id == ZeroId {
        var _ := Cascade.CascadeSave(store, schema, name, Cascade.Document(id, body), fuel);
        return Some(NotNewWithoutId);
      }
      if id == ZeroId {
        id := newId;
        doc.SetID(id);
      }
      err := Persist(doc, body, caps, schema, fuel);
    }

    method Persist(doc: DocumentBase, body: Doc, caps: Capabilities, schema: Cascade.Schema, fuel: nat)
      returns (err: Option<Error>)
      modifies this`hookCalls, doc, store
      ensures var o := PersistModel(name, old(doc.State()), body, caps, old(store.Snapshot()), store.faults, schema, fuel);
        doc.State() == o.base && store.Snapshot() == o.st && hookCalls == old(hookCalls) + o.calls && err == o.err
    {
      var id := doc.GetID();
      err := store.Upsert(name, id, Encode(doc.State(), body));
      var _ := Cascade.CascadeSave(store, schema, name, Cascade.Document(id, body), fuel);
      if err.Some? {
        return;
      }
      err := CallHook(AfterSaveHook, caps.afterSave);
      if err.Some? {
        return;
      }
      if caps.newTracker {
        doc.SetIsNew(false);
      }
    }

    /** FindByID into `doc`; returns the stored document that was decoded, if any. */
    method FindByID(id: ObjectId, doc: DocumentBase, caps: Capabilities) returns (err: Option<Error>, found: Option<Doc>)
      modifies this`hookCalls, doc, store
      ensures var o := FindModel(name, id, old(doc.State()), caps, old(store.Snapshot()), store.faults);
        doc.State() == o.base && store.Snapshot() == o.st && hookCalls == old(hookCalls) + o.calls
        && err == o.err && found == o.found
    {
      var res := store.Find(name, ById(id));
      if res.Err? {
        return Some(res.error), None;
      }
      if |res.value| == 0 {
        return Some(DocumentNotFound), None;
      }
      var d := res.value[0];
      found := Some(d);
      doc.SetID(IdOf(d));
      doc.SetCreatedAt(TimeField(d, "created_at", doc.GetCreatedAt()));
      doc.SetUpdatedAt(TimeField(d, "updated_at", doc.GetUpdatedAt()));
      doc.SetDeletedAt(TimeField(d, "deleted_at", doc.GetDeletedAt()));
      err := CallHook(AfterFindHook, caps.afterFind);
      if err.Some? {
        return;
      }
      if caps.newTracker {
        doc.SetIsNew(false);
      }
    }

    /** DeleteDocument; the result is the number of documents the delete removed. */
    method DeleteDocument(doc: DocumentBase, body: Doc, caps: Capabilities, schema: Cascade.Schema) returns (r: Result<nat>)
      modifies this`hookCalls, store
      ensures var o := DeleteModel(name, doc.State(), body, caps, old(store.Snapshot()), store.faults, schema);
        store.Snapshot() == o.st && hookCalls == old(hookCalls) + o.calls && r == o.r
    {
      var err := CallHook(BeforeDeleteHook, caps.beforeDelete);
      if err.Some? {
        return Err(err.value);
      }
      var res := store.DeleteOne(name, ById(doc.GetID()));
      if res.Err? {
        return res;
      }
      var _ := Cascade.CascadeDelete(store, schema, name, Cascade.Document(doc.GetID(), body));
      err := CallHook(AfterDeleteHook, caps.afterDelete);
      if err.Some? {
        return Err(err.value);
      }
      return res;
    }
  }
}
