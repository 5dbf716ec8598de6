/** The cascade engine: keeps denormalised copies of a document's fields in sync inside
    the documents of other collections that embed them.

    A CascadeConfig is turned into a short, fixed sequence of store requests chosen by
    its relation type (SaveRequests, DeleteRequests); the error a config reports is the
    error of the last request it issued. CascadeSave and CascadeDelete run a document's
    configs in order. All of this is stated as functions over the store's state, and the
    methods that issue the requests are proved to have exactly those effects. */
module Cascade {
  import opened Errors
  import opened Store

  /** Relation types: the owner holds an array of embeds (REL_MANY) or a single one (REL_ONE). */
  const REL_MANY: int := 0
  const REL_ONE: int := 1

  datatype ReferenceField = ReferenceField(bsonName: string, value: Value)

  /** A document as the engine sees it: GetID() and its fields as reflection reads them. */
  datatype Document = Document(id: ObjectId, fields: map<string, Value>)

  datatype CascadeConfig = CascadeConfig(
    collection: string,                   // the collection to cascade to
    relType: int,                         // REL_MANY, REL_ONE or anything else
    throughProp: string,                  // the owner's field holding the embed; "" means the root
    query: Query,                         // selects the current owners
    oldQuery: Query,                      // selects the previous owners; empty when there are none
    nest: bool,                           // cascade the owners in turn
    properties: seq<string>,              // fields to null out when there is no ThroughProp
    data: Doc,                            // the embed itself
    instance: Document,                   // the document the nested cascade is run on
    instanceFindFails: bool,              // the instance's AfterFind hook returns an error
    removeOnly: bool,                     // only remove the old embed, write no new one
    referenceQuery: seq<ReferenceField>)  // identifies this document inside a REL_MANY array

  /** GetCascade: the configs of a cascading document, None for a document that does not cascade. */
  type Schema = (string, Document) -> Option<seq<CascadeConfig>>

  // ---------------------------------------------------------------------------
  // The requests one config issues

  /** The $pull condition built from the reference fields; a later field of the same name wins. */
  function ReferenceCondition(refs: seq<ReferenceField>): Query
  {
    if |refs| == 0 then map[]
    else ReferenceCondition(refs[..|refs| - 1])[refs[|refs| - 1].bsonName := refs[|refs| - 1].value]
  }

  /** Every listed property set to null. */
  function Nulled(props: seq<string>): map<string, Value>
  {
    map p | p in props :: Null
  }

  /** What cleanup writes: ThroughProp set to null, or else each of Properties. */
  function Cleared(conf: CascadeConfig): map<string, Value>
  {
    if |conf.throughProp| > 0 then map[conf.throughProp := Null] else Nulled(conf.properties)
  }

  /** What a REL_ONE save writes: Data under ThroughProp, or else Data's fields at the root. */
  function Written(conf: CascadeConfig): map<string, Value>
  {
    if |conf.throughProp| > 0 then map[conf.throughProp := Map(conf.data)] else conf.data
  }

  function PullSelf(conf: CascadeConfig): Op
  {
    Pull(conf.throughProp, ReferenceCondition(conf.referenceQuery))
  }

  /** True when the config only cleans up the previous owners. */
  predicate StopsAfterCleanup(conf: CascadeConfig)
  {
    |conf.oldQuery| > 0 && conf.removeOnly
  }

  /** REL_ONE: $set null at the old owners, then (unless RemoveOnly) $set the embed at the owners. */
  function OneSaveRequests(conf: CascadeConfig): seq<Request>
  {
    var cleanup := if |conf.oldQuery| > 0 then [UpdateMany(conf.collection, conf.oldQuery, Set(Cleared(conf)))] else [];
    if StopsAfterCleanup(conf) then cleanup
    else cleanup + [UpdateMany(conf.collection, conf.query, Set(Written(conf)))]
  }

  /** REL_MANY: $pull self at the old owners, then (unless RemoveOnly) $pull self and $push the embed at the owners. */
  function ManySaveRequests(conf: CascadeConfig): seq<Request>
  {
    var cleanup := if |conf.oldQuery| > 0 then [UpdateMany(conf.collection, conf.oldQuery, PullSelf(conf))] else [];
    if StopsAfterCleanup(conf) then cleanup
    else cleanup + [UpdateMany(conf.collection, conf.query, PullSelf(conf)),
                    UpdateMany(conf.collection, conf.query, Push(conf.throughProp, Map(conf.data)))]
  }

  function SaveRequests(conf: CascadeConfig): seq<Request>
  {
    if conf.relType == REL_ONE then OneSaveRequests(conf)
    else if conf.relType == REL_MANY then ManySaveRequests(conf)
    else []
  }

  function DeleteRequests(conf: CascadeConfig): seq<Request>
  {
    if conf.relType == REL_ONE then [UpdateMany(conf.collection, conf.query, Set(Cleared(conf)))]
    else if conf.relType == REL_MANY then [UpdateMany(conf.collection, conf.query, PullSelf(conf))]
    else []
  }

  /** Issue the requests; report the last one's error, or InvalidRelationType when there are none. */
  function Outcome(st: StoreState, reqs: seq<Request>, faults: set<nat>): (StoreState, Option<Error>)
  {
    if |reqs| == 0 then (st, Some(InvalidRelationType))
    else (Run(st, reqs, faults), ErrorAt(|st.log| + |reqs| - 1, faults))
  }

  function SaveWithConfig(st: StoreState, conf: CascadeConfig, faults: set<nat>): (StoreState, Option<Error>)
  {
    Outcome(st, SaveRequests(conf), faults)
  }

  function DeleteWithConfig(st: StoreState, conf: CascadeConfig, faults: set<nat>): (StoreState, Option<Error>)
  {
    Outcome(st, DeleteRequests(conf), faults)
  }

  // ---------------------------------------------------------------------------
  // Whole-document cascades

  /** Save's default ReferenceQuery: the document's own ID under _id. */
  function SaveReference(conf: CascadeConfig, doc: Document): CascadeConfig
  {
    if |conf.referenceQuery| == 0 then conf.(referenceQuery := [ReferenceField("_id", Id(doc.id))]) else conf
  }

  /** Delete's default ReferenceQuery: the value of the field named Id, when there is one. */
  function DeleteReference(conf: CascadeConfig, doc: Document): Result<CascadeConfig>
  {
    if |conf.referenceQuery| > 0 then Ok(conf)
    else if "Id" in doc.fields then Ok(conf.(referenceQuery := [ReferenceField("_id", doc.fields["Id"])]))
    else Err(MissingIdentifier)
  }

  /** CascadeSave: nothing for a document that does not cascade, else its configs in order. */
  function SaveSpec(st: StoreState, faults: set<nat>, schema: Schema, coll: string, doc: Document, fuel: nat)
    : (StoreState, Option<Error>)
    decreases fuel, 3, 0
  {
    match schema(coll, doc)
    case None => (st, None)
    case Some(configs) => ConfigsSave(st, faults, schema, doc, configs, fuel)
  }

  /** The configs in order; the first error ends the run and is returned. */
  function ConfigsSave(st: StoreState, faults: set<nat>, schema: Schema, doc: Document, configs: seq<CascadeConfig>, fuel: nat)
    : (StoreState, Option<Error>)
    decreases fuel, 2, |configs|
  {
    if |configs| == 0 then (st, None)
    else
      var (st1, err1) := ConfigsSave(st, faults, schema, doc, configs[..|configs| - 1], fuel);
      if err1.Some? then (st1, err1)
      else ConfigSave(st1, faults, schema, doc, configs[|configs| - 1], fuel)
  }

  /** One config: default the reference, save, then with Nest cascade the owners. */
  function ConfigSave(st: StoreState, faults: set<nat>, schema: Schema, doc: Document, conf: CascadeConfig, fuel: nat)
    : (StoreState, Option<Error>)
    decreases fuel, 1, 0
  {
    var conf' := SaveReference(conf, doc);
    var (st1, err1) := SaveWithConfig(st, conf', faults);
    if err1.Some? || !conf'.nest then (st1, err1)
    else NestSave(st1, faults, schema, conf', fuel)
  }

  /** The owners the Nest loop cascades: each call of Next delivers one owner and runs the
      instance's AfterFind on it, and a failing AfterFind ends the loop at the first owner
      without an error. */
  function NestRounds(conf: CascadeConfig, owners: nat): nat
  {
    if conf.instanceFindFails then 0 else owners
  }

  /** The Nest step: find the owners, then cascade once per owner delivered. */
  function NestSave(st: StoreState, faults: set<nat>, schema: Schema, conf: CascadeConfig, fuel: nat)
    : (StoreState, Option<Error>)
    decreases fuel, 0, 0
  {
    if fuel == 0 then (st, Some(NestingTooDeep))
    else
      var st1 := Step(st, Find(conf.collection, conf.query), faults);
      match FindResult(st, faults, conf.collection, conf.query)
      case Err(e) => (st1, Some(e))
      case Ok(owners) => Nested(st1, faults, schema, conf.collection, conf.instance, NestRounds(conf, |owners|), fuel - 1)
  }

  /** CascadeSave of the prototype instance, n times over; the first error ends the run. */
  function Nested(st: StoreState, faults: set<nat>, schema: Schema, coll: string, instance: Document, n: nat, fuel: nat)
    : (StoreState, Option<Error>)
    decreases fuel, 4, n
  {
    if n == 0 then (st, None)
    else
      var (st1, err1) := Nested(st, faults, schema, coll, instance, n - 1, fuel);
      if err1.Some? then (st1, err1)
      else SaveSpec(st1, faults, schema, coll, instance, fuel)
  }

  /** CascadeDelete: every config runs and its error is dropped, except that a config
      whose reference cannot be defaulted aborts the rest (the source panics). */
  function DeleteSpec(st: StoreState, faults: set<nat>, schema: Schema, coll: string, doc: Document)
    : (StoreState, Option<Error>)
  {
    match schema(coll, doc)
    case None => (st, None)
    case Some(configs) => ConfigsDelete(st, faults, doc, configs)
  }

  function ConfigsDelete(st: StoreState, faults: set<nat>, doc: Document, configs: seq<CascadeConfig>)
    : (StoreState, Option<Error>)
    decreases |configs|
  {
    if |configs| == 0 then (st, None)
    else
      var (st1, err1) := ConfigsDelete(st, faults, doc, configs[..|configs| - 1]);
      if err1.Some? then (st1, err1)
      else
        match DeleteReference(configs[|configs| - 1], doc)
        case Err(e) => (st1, Some(e))
        case Ok(conf) => (DeleteWithConfig(st1, conf, faults).0, None)
  }

  // ---------------------------------------------------------------------------
  // The first error ends a run: later configs never run

  /** Once a prefix of the configs has failed, the remaining configs change nothing. */
  lemma {:induction false} ConfigsSaveStopsAtError(st: StoreState, faults: set<nat>, schema: Schema, doc: Document,
                                                   configs: seq<CascadeConfig>, k: nat, fuel: nat)
    requires k <= |configs|
    requires ConfigsSave(st, faults, schema, doc, configs[..k], fuel).1.Some?
    ensures ConfigsSave(st, faults, schema, doc, configs, fuel) == ConfigsSave(st, faults, schema, doc, configs[..k], fuel)
    decreases |configs| - k
  {
    if k == |configs| {
      assert configs[..k] == configs;
    } else {
      var longer := configs[..|configs| - 1];
      assert longer[..k] == configs[..k];
      ConfigsSaveStopsAtError(st, faults, schema, doc, longer, k, fuel);
    }
  }

  lemma {:induction false} NestedStopsAtError(st: StoreState, faults: set<nat>, schema: Schema, coll: string,
                                              instance: Document, k: nat, n: nat, fuel: nat)
    requires k <= n
    requires Nested(st, faults, schema, coll, instance, k, fuel).1.Some?
    ensures Nested(st, faults, schema, coll, instance, n, fuel) == Nested(st, faults, schema, coll, instance, k, fuel)
    decreases n - k
  {
    if k < n {
      NestedStopsAtError(st, faults, schema, coll, instance, k, n - 1, fuel);
    }
  }

  lemma {:induction false} ConfigsDeleteStopsAtError(st: StoreState, faults: set<nat>, doc: Document,
                                                     configs: seq<CascadeConfig>, k: nat)
    requires k <= |configs|
    requires ConfigsDelete(st, faults, doc, configs[..k]).1.Some?
    ensures ConfigsDelete(st, faults, doc, configs) == ConfigsDelete(st, faults, doc, configs[..k])
    decreases |configs| - k
  {
    if k == |configs| {
      assert configs[..k] == configs;
    } else {
      var longer := configs[..|configs| - 1];
      assert longer[..k] == configs[..k];
      ConfigsDeleteStopsAtError(st, faults, doc, longer, k);
    }
  }

  // ---------------------------------------------------------------------------
  // The engine

  /** The reference fields collected into one condition, as the loop in the source does. */
  method ReferenceQueryCondition(refs: seq<ReferenceField>) returns (q: Query)
    ensures q == ReferenceCondition(refs)
  {
    q := map[];
    for i := 0 to |refs|
      invariant q == ReferenceCondition(refs[..i])
    {
      assert refs[..i + 1][..i] == refs[..i];
      q := q[refs[i].bsonName := refs[i].value];
    }
    assert refs[..|refs|] == refs;
  }

  /** The $set that clears an old embed: ThroughProp, or else each of Properties, to null. */
  method ClearingUpdate(conf: CascadeConfig) returns (fields: map<string, Value>)
    ensures fields.Keys == if |conf.throughProp| > 0 then {conf.throughProp} else set p | p in conf.properties
    ensures forall k :: k in fields ==> fields[k] == Null
  {
    fields := map[];
    if |conf.throughProp| > 0 {
      fields := fields[conf.throughProp := Null];
    } else {
      for i := 0 to |conf.properties|
        invariant fields.Keys == set p | p in conf.properties[..i]
        invariant forall k :: k in fields ==> fields[k] == Null
      {
        assert conf.properties[..i + 1] == conf.properties[..i] + [conf.properties[i]];
        fields := fields[conf.properties[i] := Null];
      }
      assert conf.properties[..|conf.properties|] == conf.properties;
    }
  }

  /** The REL_ONE branch of cascadeSaveWithConfig. */
  method SaveOne(store: Store, conf: CascadeConfig) returns (err: Option<Error>)
    requires conf.relType == REL_ONE
    modifies store
    ensures store.Snapshot() == Run(old(store.Snapshot()), OneSaveRequests(conf), store.faults)
    ensures err == ErrorAt(|old(store.log)| + |OneSaveRequests(conf)| - 1, store.faults)
  {
    ghost var st0 := store.Snapshot();
    var data := conf.data;
    var cleanup: seq<Request> := [];
    if |conf.oldQuery| > 0 {
      var update1 := ClearingUpdate(conf);
      assert update1 == Cleared(conf);
      err := store.UpdateMany(conf.collection, conf.oldQuery, Set(update1));
      cleanup := [UpdateMany(conf.collection, conf.oldQuery, Set(update1))];
      RunOne(st0, cleanup[0], store.faults);
      if conf.removeOnly {
        return;
      }
    }
    var update := if |conf.throughProp| > 0 then map[conf.throughProp := Map(data)] else data;
    ghost var st1 := store.Snapshot();
    ghost var write := UpdateMany(conf.collection, conf.query, Set(update));
    err := store.UpdateMany(conf.collection, conf.query, Set(update));
    assert update == Written(conf);
    assert OneSaveRequests(conf) == cleanup + [write];
    RunOne(st1, write, store.faults);
    RunAppend(st0, cleanup, [write], store.faults);
    RunLog(st0, cleanup, store.faults);
  }

  /** The REL_MANY branch of cascadeSaveWithConfig. */
  method SaveMany(store: Store, conf: CascadeConfig) returns (err: Option<Error>)
    requires conf.relType == REL_MANY
    modifies store
    ensures store.Snapshot() == Run(old(store.Snapshot()), ManySaveRequests(conf), store.faults)
    ensures err == ErrorAt(|old(store.log)| + |ManySaveRequests(conf)| - 1, store.faults)
  {
    ghost var st0 := store.Snapshot();
    var data := conf.data;
    var cond := ReferenceQueryCondition(conf.referenceQuery);
    var update1 := Pull(conf.throughProp, cond);
    assert update1 == PullSelf(conf);
    var cleanup: seq<Request> := [];
    if |conf.oldQuery| > 0 {
      err := store.UpdateMany(conf.collection, conf.oldQuery, update1);
      cleanup := [UpdateMany(conf.collection, conf.oldQuery, update1)];
      RunOne(st0, cleanup[0], store.faults);
      if conf.removeOnly {
        return;
      }
    }
    ghost var st1 := store.Snapshot();
    // Remove self from the current owners, so that the push replaces the entry
    var _ := store.UpdateMany(conf.collection, conf.query, update1);
    err := store.UpdateMany(conf.collection, conf.query, Push(conf.throughProp, Map(data)));
    ghost var tail := [UpdateMany(conf.collection, conf.query, update1),
                       UpdateMany(conf.collection, conf.query, Push(conf.throughProp, Map(data)))];
    assert ManySaveRequests(conf) == cleanup + tail;
    RunTwo(st1, tail[0], tail[1], store.faults);
    RunAppend(st0, cleanup, tail, store.faults);
    RunLog(st0, cleanup, store.faults);
  }

  /** cascadeSaveWithConfig */
  method CascadeSaveWithConfig(store: Store, conf: CascadeConfig) returns (err: Option<Error>)
    modifies store
    ensures (store.Snapshot(), err) == SaveWithConfig(old(store.Snapshot()), conf, store.faults)
  {
    if conf.relType == REL_ONE {
      err := SaveOne(store, conf);
    } else if conf.relType == REL_MANY {
      err := SaveMany(store, conf);
    } else {
      err := Some(InvalidRelationType);
    }
  }

  /** cascadeDeleteWithConfig */
  method CascadeDeleteWithConfig(store: Store, conf: CascadeConfig) returns (err: Option<Error>)
    modifies store
    ensures (store.Snapshot(), err) == DeleteWithConfig(old(store.Snapshot()), conf, store.faults)
  {
    ghost var st0 := store.Snapshot();
    if conf.relType == REL_ONE {
      var update := ClearingUpdate(conf);
      assert update == Cleared(conf);
      err := store.UpdateMany(conf.collection, conf.query, Set(update));
      RunOne(st0, UpdateMany(conf.collection, conf.query, Set(update)), store.faults);
    } else if conf.relType == REL_MANY {
      var cond := ReferenceQueryCondition(conf.referenceQuery);
      err := store.UpdateMany(conf.collection, conf.query, Pull(conf.throughProp, cond));
      RunOne(st0, UpdateMany(conf.collection, conf.query, Pull(conf.throughProp, cond)), store.faults);
    } else {
      err := Some(InvalidRelationType);
    }
  }

  /** CascadeSave, with the depth of Nest recursion bounded by `fuel`. */
  method CascadeSave(store: Store, schema: Schema, coll: string, doc: Document, fuel: nat) returns (err: Option<Error>)
    modifies store
    ensures (store.Snapshot(), err) == SaveSpec(old(store.Snapshot()), store.faults, schema, coll, doc, fuel)
    decreases fuel, 1
  {
    ghost var st0 := store.Snapshot();
    var toCascade := schema(coll, doc);
    if toCascade.None? {
      return None;
    }
    var configs := toCascade.value;
    for i := 0 to |configs|
      invariant (store.Snapshot(), None) == ConfigsSave(st0, store.faults, schema, doc, configs[..i], fuel)
    {
      assert configs[..i + 1][..i] == configs[..i];
      assert configs[..i + 1][i] == configs[i];
      var conf := configs[i];
      if |conf.referenceQuery| == 0 {
        conf := conf.(referenceQuery := [ReferenceField("_id", Id(doc.id))]);
      }
      assert conf == SaveReference(configs[i], doc);
      err := CascadeSaveWithConfig(store, conf);
      if err.None? && conf.nest {
        err := CascadeNested(store, schema, conf, fuel);
      }
      if err.Some? {
        ConfigsSaveStopsAtError(st0, store.faults, schema, doc, configs, i + 1, fuel);
        return;
      }
    }
    assert configs[..|configs|] == configs;
    return None;
  }

  /** The Nest step of CascadeSave: find the owners, then cascade the instance once per owner
      delivered; a failing AfterFind on the instance ends the loop silently. */
  method CascadeNested(store: Store, schema: Schema, conf: CascadeConfig, fuel: nat) returns (err: Option<Error>)
    modifies store
    ensures (store.Snapshot(), err) == NestSave(old(store.Snapshot()), store.faults, schema, conf, fuel)
    decreases fuel, 0
  {
    if fuel == 0 {
      return Some(NestingTooDeep);
    }
    var results := store.Find(conf.collection, conf.query);
    if results.Err? {
      return Some(results.error);
    }
    ghost var st1 := store.Snapshot();
    var owners := results.value;
    for j := 0 to |owners|
      invariant conf.instanceFindFails ==> j == 0
      invariant (store.Snapshot(), None) == Nested(st1, store.faults, schema, conf.collection, conf.instance, j, fuel - 1)
    {
      if conf.instanceFindFails {
        // Next reports the hook's error and returns false: the loop ends, and the error is not checked
        return None;
      }
      err := CascadeSave(store, schema, conf.collection, conf.instance, fuel - 1);
      if err.Some? {
        NestedStopsAtError(st1, store.faults, schema, conf.collection, conf.instance, j + 1, |owners|, fuel - 1);
        return;
      }
    }
    return None;
  }

  /** CascadeDelete: every config runs; errors of the store are dropped. */
  method CascadeDelete(store: Store, schema: Schema, coll: string, doc: Document) returns (panicked: Option<Error>)
    modifies store
    ensures (store.Snapshot(), panicked) == DeleteSpec(old(store.Snapshot()), store.faults, schema, coll, doc)
  {
    ghost var st0 := store.Snapshot();
    var toCascade := schema(coll, doc);
    if toCascade.None? {
      return None;
    }
    var configs := toCascade.value;
    for i := 0 to |configs|
      invariant (store.Snapshot(), None) == ConfigsDelete(st0, store.faults, doc, configs[..i])
    {
      assert configs[..i + 1][..i] == configs[..i];
      assert configs[..i + 1][i] == configs[i];
      var conf := configs[i];
      if |conf.referenceQuery| == 0 {
        if "Id" !in doc.fields {
          assert DeleteReference(configs[i], doc) == Err(MissingIdentifier);
          ConfigsDeleteStopsAtError(st0, store.faults, doc, configs, i + 1);
          return Some(MissingIdentifier);
        }
        conf := conf.(referenceQuery := [ReferenceField("_id", doc.fields["Id"])]);
      }
      assert DeleteReference(configs[i], doc) == Ok(conf);
      var _ := CascadeDeleteWithConfig(store, conf);
    }
    assert configs[..|configs|] == configs;
    return None;
  }
}
