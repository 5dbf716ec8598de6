# bongo, modelled in Dafny

bongo is a small object-document layer over MongoDB for Go. This project models its core:

- the **cascade engine** (`cascade.go`), which keeps denormalised copies of a document's fields in sync inside the documents of other collections that embed them;
- **`Collection.Save`, `PreSave`, `FindByID` and `DeleteDocument`** (`collection.go`), with their hooks, the newness tracker, the ID and the timestamps;
- **`ResultSet`** (`resultset.go`): `Next`/`Free` over a cursor, and `Paginate`'s page arithmetic;
- **`DocumentBase`** (`document_base.go`): the ID, the three timestamps and the inverted newness flag;
- **the validators** (`validate.go`).

The database is replaced by an abstract store (module `Store`):

- A database maps collection names to sequences of documents. A document maps field names to values (`Null | Bool | Int | Str | Id | Map | Array`).
- A query is a conjunction of field equalities.
- The only update operators are `$set`, `$pull` (remove the array entries matching every pair of a condition) and `$push` (append to an absent, null or array field).
- The `Store` object logs every request it receives. A fixed set `faults` of log positions models requests the server rejects: a rejected request is logged, changes nothing and returns `StoreError(position)`.

Every operation that issues requests is proved equal to a function of the store's state (`SaveSpec`, `SaveModel`, `FindModel`, `DeleteModel`, …). The promised properties are then proved about those functions as lemmas.

Module layout:

| file | module | contents |
|---|---|---|
| errors.dfy | Errors | `Option`, `Result`, the error kinds and their messages |
| text.dfy | Text | `strings.Join` and `strings.Split` on one separator |
| store.dfy | Store | values, queries, operators, requests, the store's axioms and the `Store` class |
| cascade.dfy | Cascade | `CascadeConfig`, the requests each relation type issues, `CascadeSave`, `CascadeDelete` |
| cascade_properties.dfy | CascadeProperties | what a cascade does to the owners' documents |
| projection.dfy | Projection | `MapFromCascadeProperties` |
| document_base.dfy | DocumentBases | the `DocumentBase` class |
| collection.dfy | Collections | `Collection` with `Save`, `PreSave`, `FindByID`, `DeleteDocument`; `ValidationError.Error` |
| collection_properties.dfy | CollectionProperties | what `Save`, `FindByID` and `DeleteDocument` promise |
| resultset.dfy | ResultSets | `ResultSet.Next`, `Free`, `Paginate` and the page arithmetic |
| validate.dfy | Validate | `stringInSlice`, `ValidateInclusionIn`, `ValidateRequired`, `ValidateMongoIdRef` |

Where the code behaves differently from what its documentation or tests suggest, the model follows the code:

- `ResultSet.Next` never decodes the cursor's document into its argument (resultset.go:34). So the `Nest` loop of `CascadeSave` (cascade.go:82-93) runs `CascadeSave` on the config's prototype `Instance` once per owner found, not on each owner. `NestSave`/`Nested` model exactly that.
- `CascadeDelete` defaults an empty `ReferenceQuery` from a Go field named `Id` (cascade.go:112). A document that embeds `DocumentBase` has `ID`, not `Id`, so there the lookup fails and the source panics. The model stops the delete cascade with `MissingIdentifier` at that config.
- `Paginate` counts the whole collection (the count's filter is nil, resultset.go:75), not the result set's query.

## Model

| member | source | states |
|---|---|---|
| Cascade.ReferenceQueryCondition | cascade.go:149-152 | the `$pull` condition built from the reference fields equals `ReferenceCondition`: every pair, a later pair of the same name overriding an earlier one |
| Cascade.ClearingUpdate | cascade.go:173-179 | the cleanup `$set` has exactly ThroughProp as its key when ThroughProp is set, otherwise exactly the listed Properties, and every value it writes is null |
| Cascade.SaveOne | cascade.go:166-199 | the REL_ONE branch issues the old-owner cleanup (when OldQuery is non-empty), stops there under RemoveOnly, and otherwise writes the embed at the owners; the store ends as those requests leave it and the error is the last request's |
| Cascade.SaveMany | cascade.go:200-227 | the REL_MANY branch pulls self at the old owners (stopping there under RemoveOnly), then pulls self and pushes Data at the owners, ignoring the first pull's error |
| Cascade.CascadeSaveWithConfig | cascade.go:161-233 | dispatch on RelType: REL_ONE and REL_MANY issue their requests; any other type is InvalidRelationType |
| Cascade.CascadeDeleteWithConfig | cascade.go:127-158 | REL_ONE nulls ThroughProp, or else each Property, at the owners; REL_MANY pulls self from ThroughProp; any other type is InvalidRelationType |
| Cascade.CascadeSave | cascade.go:70-98 | a document without configs returns nil with no request; otherwise the configs run in order, each after its reference is defaulted, with Nest recursion after a successful config, and the run ends at the first error |
| Cascade.CascadeNested | cascade.go:82-93 | the Nest step finds the owners and returns the find's error; otherwise it cascades the prototype instance once per owner the cursor delivers, stopping at the first error, and a failing AfterFind on the instance ends the loop with no cascade and no error; the depth is bounded by fuel |
| Cascade.CascadeDelete | cascade.go:101-124 | every config runs with its error dropped; an empty reference is defaulted from the field `Id`, and a document without one stops the run (the source panics) |
| Cascade.ConfigsSaveStopsAtError | cascade.go:78-81 | once a prefix of the configs has failed, the later configs issue nothing and the first error is returned |
| Cascade.NestedStopsAtError | cascade.go:87-91 | once a nested cascade has failed, the remaining owners are not cascaded |
| Cascade.ConfigsDeleteStopsAtError | cascade.go:111-117 | a config whose reference cannot be defaulted ends the delete cascade; later configs issue nothing |
| CascadeProperties.PullEffect | cascade.go:220 | `$pull` leaves in the field exactly the entries that do not match the condition, and changes neither pushability nor matching of a query on other fields |
| CascadeProperties.PushEffect | cascade.go:222-227 | `$push` on an absent, null or array field appends the value to the entries |
| CascadeProperties.SaveFrame | cascade.go:161-233 | a save leaves unchanged every document that neither Query nor the non-empty OldQuery selects, and every other collection |
| CascadeProperties.DeleteFrame | cascade.go:127-158 | a delete leaves unchanged every document that Query does not select, and every other collection |
| CascadeProperties.InvalidRelationTypeChangesNothing | cascade.go:157 | any RelType other than REL_MANY and REL_ONE makes save and delete return InvalidRelationType with the store unchanged |
| CascadeProperties.RemoveOnlyNeedsOldQuery | cascade.go:166-186 | with an empty OldQuery, RemoveOnly changes none of the requests a save issues |
| CascadeProperties.SaveReportsLastRequest | cascade.go:181-199 | a valid config issues one cleanup request when OldQuery is set and one or two writes unless it stops after cleanup; the log grows by exactly those requests, and the reported error is the last one's, so a cleanup error is dropped when the write follows |
| CascadeProperties.OneSaveOwnersHoldEmbed | cascade.go:188-199 | after an accepted REL_ONE write, every owner matching Query holds Data under ThroughProp, or Data's fields at the root |
| CascadeProperties.OneSaveMovesEmbed | cascade.go:167-199 | a REL_ONE save that moves the association, both requests accepted: the new owners hold the embed, the old owners that are not new owners have it nulled, every other document is unchanged |
| CascadeProperties.OneRemoveOnlyClears | cascade.go:183-185 | with RemoveOnly and an OldQuery only the cleanup is issued, and the old owners have the embed nulled |
| CascadeProperties.ManySaveReplacesEntry | cascade.go:200-227 | after a REL_MANY save each owner's array is its old entries without those matching the reference, followed by Data; the array then holds exactly one entry matching the reference when Data does |
| CascadeProperties.ManySaveMovesEntry | cascade.go:206-227 | a REL_MANY save that moves the association, all requests accepted: an old owner that is not a current owner ends as the pull leaves it, its array holding the old entries without those matching the reference, so none matches |
| CascadeProperties.ManyRemoveOnlyPulls | cascade.go:212-216 | with RemoveOnly and an OldQuery a REL_MANY save issues only the pull at the old owners: each old owner loses exactly the entries matching the reference, every other document is unchanged |
| CascadeProperties.ManySaveTwiceOneEntry | cascade.go:212-227 | saving the same REL_MANY config twice still leaves exactly one matching entry per owner |
| CascadeProperties.DeleteOneClearsOwners | cascade.go:130-143 | a REL_ONE delete nulls ThroughProp, or else each Property, at every owner |
| CascadeProperties.DeleteManyPullsSelf | cascade.go:144-154 | a REL_MANY delete removes from each owner's array exactly the entries matching the reference |
| CascadeProperties.NestFindOutcomes | cascade.go:83-92 | the Nest step returns a failed find's error; after a successful find it issues nothing more when the instance's AfterFind fails (resultset.go:38-43 ends the loop) and otherwise cascades the instance once per owner found |
| CascadeProperties.NonCascadingDocumentIsNoOp | cascade.go:70-124 | a document without cascade configs: save and delete issue no request and return nil |
| CascadeProperties.SaveDefaultsReference | cascade.go:75-77 | save defaults an empty ReferenceQuery to `_id` = GetID() and keeps a non-empty one |
| CascadeProperties.DeleteDefaultsReference | cascade.go:111-117 | delete defaults an empty ReferenceQuery to `_id` = the field `Id`; it fails exactly when the query is empty and there is no such field |
| CascadeProperties.DeleteRunsEveryConfig | cascade.go:108-121 | when every reference resolves, a delete cascade issues the requests of every config in order and reports no error, whatever the store answers |
| CascadeProperties.SaveSpecAppends | cascade.go:70-98 | a save cascade only appends to the log, and only owner updates and finds: it never upserts or deletes, and earlier updates are not undone |
| CascadeProperties.AppendsTransitive | cascade.go:78-93 | appending cascade requests twice is appending cascade requests |
| CascadeProperties.ConfigAppendsUpdates | cascade.go:161-233 | one config appends only owner updates |
| CascadeProperties.ConfigsSaveAppends | cascade.go:74-96 | the configs in order append only owner updates and finds |
| CascadeProperties.ConfigSaveAppends | cascade.go:75-93 | one config with its Nest step appends only owner updates and finds |
| CascadeProperties.NestSaveAppends | cascade.go:82-93 | the Nest step appends only the find and the nested cascades' requests |
| CascadeProperties.NestedAppends | cascade.go:87-91 | the nested cascades append only owner updates and finds |
| Projection.MapFromCascadeProperties | cascade.go:237-280 | the loop builds exactly `Project(properties, doc)`: properties added in order, the first path conflict returning `DotPathConflict` at once |
| Projection.InsertFailsIffBlocked | cascade.go:250-264 | inserting a dotted path fails, with DotPathConflict, exactly when an intermediate name along it holds anything but a map the walk created |
| Projection.InsertThenLookup | cascade.go:250-275 | after a successful insert, the value is found at the full path |
| Projection.InsertTouchesOneKey | cascade.go:250-275 | an insert adds or replaces only the path's first name at the top level |
| Projection.AddPropertyKeys | cascade.go:240-275 | adding a property adds its first path segment to the keys, and no other |
| Projection.ProjectKeys | cascade.go:237-280 | the top-level keys of the result are exactly the first segments of the properties |
| Projection.PlainPropertyIsTopLevel | cascade.go:243-244 | a property without a dot is set at the top level to the document's value, or null when the document lacks it |
| Projection.DottedPropertyNests | cascade.go:245-276 | a dotted property nests its value under the maps named by its leading segments |
| Projection.CopiedValueBlocksPath | cascade.go:244-256 | `["child", "child.name"]` is a conflict for every document: the copied child value is not a map the walk can enter, where the source panics |
| Projection.ProjectErrIsConflict | cascade.go:255-263 | every failure of the construction is a path conflict |
| Projection.ProjectStopsAtConflict | cascade.go:240-263 | once a prefix of the properties conflicts, the result is that conflict and later properties are never added |
| Projection.BarChildNameExample | cascade_test.go:273-281 | `["bar", "child.name"]` gives a two-key map with `bar` and `child → {name}` |
| DocumentBases.DocumentBase.constructor | document_base.go:12-19 | the zero value has a zero ID, zero times, and is new |
| DocumentBases.DocumentBase.SetIsNew | document_base.go:22-29 | after SetIsNew(b), IsNew() is b; only the flag changes |
| DocumentBases.DocumentBase.SetID | document_base.go:32-39 | after SetID(id), GetID() is id; only the ID changes |
| DocumentBases.DocumentBase.SetCreatedAt | document_base.go:42-49 | the created time round-trips through its getter; only it changes |
| DocumentBases.DocumentBase.SetUpdatedAt | document_base.go:52-59 | the updated time round-trips through its getter; only it changes |
| DocumentBases.DocumentBase.SetDeletedAt | document_base.go:62-69 | the deleted time round-trips through its getter; only it changes |
| Collections.ValidationMessageShape | collection.go:61-68 | the message is "Validation failed. (" + the errors' messages joined by ", " + ")": empty parentheses for none, the single message for one |
| Collections.ValidationErrorText | collection.go:61-68 | the loop that fills the message slice yields exactly that message |
| Collections.PreSaveOrdering | collection.go:98-116 | a failed validation is reported and BeforeSave never runs; otherwise PreSave reports exactly BeforeSave's error; PreSave passes iff both do |
| Collections.Collection.CallHook | collection.go:162-167 | a hook the document implements is called and recorded, and its error returned |
| Collections.Collection.PreSave | collection.go:98-116 | the hooks called and the error returned are those of `PreSaveCalls` and `PreSaveError` |
| Collections.Stamp | collection.go:125-141 | newness is the tracker's answer, or new without a tracker; CreatedAt is set to now only when new and created times are tracked, UpdatedAt whenever modified times are tracked, nothing else changes |
| Collections.Collection.Save | collection.go:118-175 | the document, the store and the hooks called end as `SaveModel` says |
| Collections.Collection.SaveStamped | collection.go:145-155 | the ID check and ID generation, as `SaveStampedModel` says |
| Collections.Collection.Persist | collection.go:157-172 | the upsert, the cascade, AfterSave and the newness flag, as `PersistModel` says |
| Collections.Collection.FindByID | collection.go:177-205 | the document, the store and the hooks end as `FindModel` says |
| Collections.Collection.DeleteDocument | collection.go:259-288 | the store, the hooks and the result are as `DeleteModel` says |
| CollectionProperties.SaveValidationFailure | collection.go:121-124 | failed validation ends Save: nothing stamped, written or cascaded, BeforeSave not called |
| CollectionProperties.SaveBeforeSaveFailure | collection.go:108-113 | a BeforeSave error is returned as it is, before any change |
| CollectionProperties.SaveNotNewWithoutId | collection.go:147-149 | a tracked, not-new document with a zero ID fails with the new-tracker error; nothing is upserted or deleted, and it stays not new |
| CollectionProperties.SaveAssignsIdAndUpserts | collection.go:145-160 | the ID is kept when set and generated (non-zero) when zero; the first request is the upsert of the document under that ID, and an accepted upsert leaves the document in the collection |
| CollectionProperties.SaveTimestamps | collection.go:133-141 | CreatedAt is set only for a new document, UpdatedAt on every save past PreSave, DeletedAt never |
| CollectionProperties.SaveSucceedsIff | collection.go:118-175 | Save returns nil exactly when PreSave passes, the ID check passes, the upsert is accepted and AfterSave passes |
| CollectionProperties.SaveNewness | collection.go:157-172 | the document stops being new only when the whole save succeeds and it tracks newness; any error leaves the flag |
| CollectionProperties.SaveHookOrder | collection.go:121-167 | hooks run Validate, BeforeSave, AfterSave; AfterSave only after PreSave passed and the upsert was accepted |
| CollectionProperties.FindByIdNotFound | collection.go:185-187 | no document with the ID gives DocumentNotFound, no hook, and the document unchanged |
| CollectionProperties.FindByIdFound | collection.go:181-203 | a document with the ID is decoded (its ID is the one asked for), AfterFind runs, and the document is marked not new |
| CollectionProperties.FindByIdStoreError | collection.go:188-189 | a failing find returns its error with the document unchanged; a find never changes stored documents |
| CollectionProperties.DeleteBeforeDeleteFailure | collection.go:264-269 | a BeforeDelete error returns before any request |
| CollectionProperties.DeleteFailureSkipsCascade | collection.go:271-275 | a failed delete is the only request: no cascade, no AfterDelete |
| CollectionProperties.DeleteCount | collection.go:271-286 | a successful delete reports one deleted document when one had the ID, and none otherwise |
| ResultSets.TotalPagesIsCeiling | resultset.go:82 | TotalPages is the ceiling of count / perPage: the least number of pages holding count, zero iff count is zero |
| ResultSets.TotalPagesQuotient | resultset.go:82 | the page count is the quotient, plus one when there is a remainder |
| ResultSets.CurrentPageClamped | resultset.go:84-88 | a page below 1 becomes 1, a page past the end the last page, any other page is kept; with records present it lies in [1, TotalPages] |
| ResultSets.EmptyCollectionPage | resultset.go:84-92 | an empty collection with page ≥ 1 gives page 0, no records and a skip of minus one page |
| ResultSets.RecordsOnPageCounts | resultset.go:99-109 | with records present, RecordsOnPage is the records from the skip on, capped at one page, so it lies in [1, perPage] |
| ResultSets.ResultSet.constructor | collection.go:209-224 | a fresh result set has not loaded its iterator, holds no error and has no skip or limit |
| ResultSets.ResultSet.Next | resultset.go:27-58 | Next sets loadedIter; a delivered document runs AfterFind, whose error is recorded and returns false, and is otherwise marked not new; an exhausted cursor records its error and returns false |
| ResultSets.ResultSet.Free | resultset.go:60-68 | the cursor is closed, and its close error returned, only if Next was ever called |
| ResultSets.ResultSet.Paginate | resultset.go:71-112 | a failed count returns the zero info and leaves skip and limit unset; otherwise the info is `PageInfo(count, perPage, page)`, skip is (current − 1)·perPage and limit perPage |
| Validate.InSliceIsMembership | validate.go:24-31 | scanning from the front finds the string exactly when it is in the list |
| Validate.StringInSlice | validate.go:24-31 | the loop with early return answers membership; an empty list gives false |
| Validate.ValidateInclusionIn | validate.go:33-35 | true iff the value is one of the options |
| Validate.InclusionInExamples | validate_test.go:20-23 | "foo" is in ["foo","bar","baz"], "bing" is not |
| Validate.ValidateRequired | validate.go:10-13 | a panic (None) exactly for an untyped nil or a type without equality |
| Validate.RequiredFailsExactlyOnZero | validate.go:10-13 | for comparable values, ValidateRequired is false exactly on the zero value of the value's type |
| Validate.RequiredExamples | validate_test.go:14-17 | "foo" and 1 are present, "" and 0 are not |
| Validate.MongoIdRefAsWrittenRejectsAll | validate.go:15-22 | as written, ValidateMongoIdRef is false for every store and ID |
| Validate.MongoIdRefIff | validate.go:15-22 | as intended, a non-zero ID is valid exactly when the find succeeds and the collection holds a document with that ID |
| Validate.MongoIdRefCounterexample | validate_test.go:36-39 | a store holding a saved document: the intended check accepts its ID, the written one does not |

## Left out

- main.go is not part of this model: connecting and building collections is network I/O and struct filling.
- Concurrency: `go CascadeSave` and `go CascadeDelete` (collection.go:143, 277) run here as sequential steps. In Save the cascade runs after the upsert attempt, or in its place when the ID check fails; in DeleteDocument it runs after the delete. Their returned errors are dropped, as in the source. The panic of CascadeDelete (cascade.go:114) is not recovered in the source and ends the Go process; the model turns it into `MissingIdentifier`, which stops the delete cascade, and DeleteDocument returns as if nothing had happened. The source's cascade may read the document before `SetID` and before the timestamps; the model uses the ID the document ends with.
- MongoDB semantics: the driver, cursors and the query language are replaced by the abstract store (equality queries; `$set`, `$pull`, `$push`). Dotted paths inside owner documents are treated as plain field names. Three operator cases differ from the server, which rejects them: `$push` onto a field holding a non-array changes nothing; `$push` onto a field holding null makes a new one-entry array (`Pushable`); `$pull` on a field that is absent or not an array changes nothing.
- `UpsertID` (collection.go:226-232) is modelled as its name says, an insert-or-replace by `_id`. The driver's UpdateOne without `$` operators or the upsert option is not modelled.
- Reflection: `dotaccess.Get`, `reflections.GetField` and the type switches on hook interfaces become explicit data. A document is its bson-named field map plus a `Capabilities` record; the field `Id` that CascadeDelete reflects is looked up in that map under the key `Id`. The source reads the Go field name `Id` (which the driver would store under the bson key `id`), so the model's `MissingIdentifier` condition is a stand-in for the source's: it does not follow the Go field names or the bson tags.
- `DiffTracker` is not defined in the modelled files: each config's OldQuery is an input.
- The clock (`time.Now`) and the ObjectID generator are parameters (`now`, `newId`, with `newId` non-zero as `primitive.NewObjectID` guarantees).
- Hook implementations are outcomes (absent, passes, fails with a message); Validate is its list of errors.
- Collections.Collection.FindByID: the driver's Decode is modelled as filling the document's ID and times from the stored document. Whether `Decode(&doc)` on an interface really fills the caller's struct is driver behaviour outside the model.
- Cascade.CascadeNested: a cursor error while iterating the owners is not modelled; the owners found are read to the end. A passing AfterFind on the instance also marks it not new (resultset.go:46-48); that flag does not affect CascadeSave and is not modelled. Recursion depth is bounded by `fuel`, and running out is `NestingTooDeep`, where the source recurses without bound.
- Projection.MapFromCascadeProperties: the source walks an alias into the nested map and mutates it in place; the model rebuilds the nested maps. The model enters only the maps the walk created; when a plain property has copied a document field that really is a `map[string]interface{}`, the source descends into that map and writes the later leaves into the document's own map (aliasing), while the model reports `DotPathConflict`. The model never mutates the document. A path conflict, where the source panics, is an `Err`.
- ResultSets.ResultSet.Paginate: `math.Ceil` and `math.Mod` on float64 become integer ceiling division and remainder, exact for the counts involved. `perPage > 0` is required, since division by zero is not defined by the source.
- ResultSets.ResultSet.Next: the cursor is a list of pending documents plus the error it reports once exhausted; decoding the document is not done by the source and is not modelled.
- Validate.ValidateRequired: values are a tagged type covering strings, integers, booleans, ObjectIDs, times, slices and nil. Other Go types are not modelled. Slices and nil make the source panic, modelled as `None`; maps, which also panic there, have no variant in `Field`.

## Findings

| source | as written | input that shows it | evidently intended | confidence | as-written member | corrected member |
|---|---|---|---|---|---|---|
| validate.go:17 | `err != nil \|\| cur.Err() != nil \|\| cur != nil` returns false, and a successful Find always returns a non-nil cursor, so the function is false for every input | a collection holding a document saved with ID 1, asked for ID 1 (the check at validate_test.go:39 expects true) | true exactly when the find succeeds and returns a document with that ID | high, not executed | Validate.MongoIdRefAsWrittenRejectsAll | Validate.MongoIdRefIff |
