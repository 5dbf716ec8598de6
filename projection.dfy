/** MapFromCascadeProperties: the nested map of a document's properties, named by dotted
    paths, that a cascade config carries down as its Data. */
module Projection {
  import opened Errors
  import opened Store
  import Text

  /** The value at a path of nested maps, if every step but the last reaches a map. */
  function Lookup(m: map<string, Value>, path: seq<string>): Option<Value>
    requires |path| >= 1
    decreases |path|
  {
    if path[0] !in m then None
    else if |path| == 1 then Some(m[path[0]])
    else if m[path[0]].Map? then Lookup(m[path[0]].fields, path[1..])
    else None
  }

  /** dotaccess.Get on the document with its error dropped: the value at the dotted path, or
      nil when the path does not resolve. */
  function DotGet(doc: Doc, prop: string): Value
  {
    match Lookup(doc, Text.Split(prop, '.'))
    case Some(v) => v
    case None => Null
  }

  /** A value of the map under construction: a value copied from the document, whatever its
      Go type (a struct, a bson.M, a scalar), or a map[string]interface{} that the walk itself
      created. The walk enters only the latter. */
  datatype Entry = Copied(v: Value) | Nested(entries: map<string, Entry>)

  type Data = map<string, Entry>

  /** The entry at a path of nested maps, if every step but the last reaches a created map. */
  function At(m: Data, path: seq<string>): Option<Entry>
    requires |path| >= 1
    decreases |path|
  {
    if path[0] !in m then None
    else if |path| == 1 then Some(m[path[0]])
    else if m[path[0]].Nested? then At(m[path[0]].entries, path[1..])
    else None
  }

  /** Sets `leaf` to `v` below the maps named by `prefix`, creating the missing ones and
      reusing the existing ones; any other value on the way is a conflict. */
  function Insert(m: Data, prefix: seq<string>, leaf: string, v: Entry): Result<Data>
    decreases |prefix|
  {
    if |prefix| == 0 then Ok(m[leaf := v])
    else
      var s := prefix[0];
      if s in m && !m[s].Nested? then Err(DotPathConflict)
      else
        var inner := if s in m then m[s].entries else map[];
        match Insert(inner, prefix[1..], leaf, v)
        case Err(e) => Err(e)
        case Ok(sub) => Ok(m[s := Nested(sub)])
  }

  /** Adds one property to the map under construction. */
  function AddProperty(data: Data, prop: string, doc: Doc): Result<Data>
  {
    var split := Text.Split(prop, '.');
    if |split| == 1 then Ok(data[prop := Copied(DotGet(doc, prop))])
    else Insert(data, split[..|split| - 1], split[|split| - 1], Copied(DotGet(doc, prop)))
  }

  /** The properties added in order to an empty map; the first conflict ends it. */
  function Project(props: seq<string>, doc: Doc): Result<Data>
    decreases |props|
  {
    if |props| == 0 then Ok(map[])
    else
      match Project(props[..|props| - 1], doc)
      case Err(e) => Err(e)
      case Ok(data) => AddProperty(data, props[|props| - 1], doc)
  }

  /** MapFromCascadeProperties; a conflict, where the Go code panics, is an Err. */
  method MapFromCascadeProperties(properties: seq<string>, doc: Doc) returns (r: Result<Data>)
    ensures r == Project(properties, doc)
  {
    var data: Data := map[];
    for i := 0 to |properties|
      invariant Project(properties[..i], doc) == Ok(data)
    {
      assert properties[..i + 1][..i] == properties[..i];
      var next := AddProperty(data, properties[i], doc);
      if next.Err? {
        ProjectStopsAtConflict(properties, doc, i + 1);
        return Err(DotPathConflict);
      }
      data := next.value;
    }
    assert properties[..|properties|] == properties;
    return Ok(data);
  }

  // ---------------------------------------------------------------------------
  // Properties of the construction

  /** Insert fails exactly when one of the prefix's maps, followed from the root, holds
      under the next name something other than a created map. */
  predicate Blocked(m: Data, prefix: seq<string>)
  {
    exists k :: 1 <= k <= |prefix| && At(m, prefix[..k]).Some? && !At(m, prefix[..k]).value.Nested?
  }

  lemma {:induction false} AtTail(m: Data, path: seq<string>, k: nat)
    requires 2 <= k <= |path|
    ensures At(m, path[..k]) ==
      if path[0] in m && m[path[0]].Nested? then At(m[path[0]].entries, path[1..][..k - 1]) else None
  {
    assert path[..k][0] == path[0];
    assert path[..k][1..] == path[1..][..k - 1];
  }

  lemma {:induction false} InsertFailsIffBlocked(m: Data, prefix: seq<string>, leaf: string, v: Entry)
    ensures Insert(m, prefix, leaf, v).Err? <==> Blocked(m, prefix)
    ensures Insert(m, prefix, leaf, v).Err? ==> Insert(m, prefix, leaf, v) == Err(DotPathConflict)
    decreases |prefix|
  {
    if |prefix| > 0 {
      var s := prefix[0];
      assert prefix[..1] == [s];
      if s in m && !m[s].Nested? {
        assert At(m, prefix[..1]) == Some(m[s]);
      } else if s in m {
        var inner := m[s].entries;
        InsertFailsIffBlocked(inner, prefix[1..], leaf, v);
        if Blocked(m, prefix) {
          var k :| 1 <= k <= |prefix| && At(m, prefix[..k]).Some? && !At(m, prefix[..k]).value.Nested?;
          assert k >= 2;
          AtTail(m, prefix, k);
          assert 1 <= k - 1 <= |prefix[1..]|;
          assert Blocked(inner, prefix[1..]);
        }
        if Blocked(inner, prefix[1..]) {
          var j :| 1 <= j <= |prefix[1..]| && At(inner, prefix[1..][..j]).Some? && !At(inner, prefix[1..][..j]).value.Nested?;
          AtTail(m, prefix, j + 1);
          assert Blocked(m, prefix);
        }
      } else {
        var empty: Data := map[];
        InsertFailsIffBlocked(empty, prefix[1..], leaf, v);
        assert !Blocked(empty, prefix[1..]) by {
          forall k | 1 <= k <= |prefix[1..]|
            ensures At(empty, prefix[1..][..k]).None?
          {
          }
        }
        assert !Blocked(m, prefix) by {
          forall k | 1 <= k <= |prefix|
            ensures At(m, prefix[..k]).None?
          {
            assert prefix[..k][0] == s;
          }
        }
      }
    }
  }

  /** After an insert the leaf is found at the full path. */
  lemma {:induction false} InsertThenLookup(m: Data, prefix: seq<string>, leaf: string, v: Entry)
    requires Insert(m, prefix, leaf, v).Ok?
    ensures At(Insert(m, prefix, leaf, v).value, prefix + [leaf]) == Some(v)
    decreases |prefix|
  {
    if |prefix| > 0 {
      var s := prefix[0];
      var inner := if s in m then m[s].entries else map[];
      InsertThenLookup(inner, prefix[1..], leaf, v);
      assert (prefix + [leaf])[1..] == prefix[1..] + [leaf];
    }
  }

  /** An insert adds at most the first name of its path at the top and changes no other key. */
  lemma InsertTouchesOneKey(m: Data, prefix: seq<string>, leaf: string, v: Entry)
    requires Insert(m, prefix, leaf, v).Ok?
    ensures var head := if |prefix| == 0 then leaf else prefix[0];
      var m' := Insert(m, prefix, leaf, v).value;
      m'.Keys == m.Keys + {head} && forall k :: k in m && k != head ==> m'[k] == m[k]
  {
  }

  /** A property adds the first segment of its path as a top-level key. */
  lemma AddPropertyKeys(data: Data, prop: string, doc: Doc)
    requires AddProperty(data, prop, doc).Ok?
    ensures AddProperty(data, prop, doc).value.Keys == data.Keys + {Text.Split(prop, '.')[0]}
  {
    var split := Text.Split(prop, '.');
    if |split| == 1 {
      Text.SplitSingleIff(prop, '.');
      Text.SplitWithoutSeparator(prop, '.');
    } else {
      InsertTouchesOneKey(data, split[..|split| - 1], split[|split| - 1], Copied(DotGet(doc, prop)));
    }
  }

  /** The top-level keys of a successful projection are the first segments of the paths. */
  lemma {:induction false} ProjectKeys(props: seq<string>, doc: Doc)
    requires Project(props, doc).Ok?
    ensures Project(props, doc).value.Keys == set p | p in props :: Text.Split(p, '.')[0]
    decreases |props|
  {
    if |props| > 0 {
      var init := props[..|props| - 1];
      var last := props[|props| - 1];
      ProjectKeys(init, doc);
      AddPropertyKeys(Project(init, doc).value, last, doc);
      FirstSegmentsSnoc(init, last);
      assert props == init + [last];
    }
  }

  /** The first segments of a list with one more path. */
  lemma FirstSegmentsSnoc(init: seq<string>, last: string)
    ensures (set p | p in init + [last] :: Text.Split(p, '.')[0])
         == (set p | p in init :: Text.Split(p, '.')[0]) + {Text.Split(last, '.')[0]}
  {
    var props := init + [last];
    forall p | p in props
      ensures p in init || p == last
    {
    }
  }

  /** A path without a dot becomes a top-level key holding the document's value. */
  lemma PlainPropertyIsTopLevel(data: Data, prop: string, doc: Doc)
    requires '.' !in prop
    ensures AddProperty(data, prop, doc) == Ok(data[prop := Copied(DotGet(doc, prop))])
    ensures DotGet(doc, prop) == if prop in doc then doc[prop] else Null
  {
    Text.SplitWithoutSeparator(prop, '.');
  }

  /** A dotted path creates or reuses the intermediate maps and sets the leaf, unless an
      intermediate value is not a map, which is a conflict. */
  lemma DottedPropertyNests(data: Data, prop: string, doc: Doc)
    requires '.' in prop
    ensures var split := Text.Split(prop, '.');
      var prefix := split[..|split| - 1];
      (AddProperty(data, prop, doc) == Err(DotPathConflict) <==> Blocked(data, prefix)) &&
      (AddProperty(data, prop, doc).Ok? ==>
         At(AddProperty(data, prop, doc).value, split) == Some(Copied(DotGet(doc, prop))))
  {
    var split := Text.Split(prop, '.');
    Text.SplitSingleIff(prop, '.');
    InsertFailsIffBlocked(data, split[..|split| - 1], split[|split| - 1], Copied(DotGet(doc, prop)));
    if AddProperty(data, prop, doc).Ok? {
      InsertThenLookup(data, split[..|split| - 1], split[|split| - 1], Copied(DotGet(doc, prop)));
      assert split[..|split| - 1] + [split[|split| - 1]] == split;
    }
  }

  lemma SplitOfChildName()
    ensures Text.Split("bar", '.') == ["bar"]
    ensures Text.Split("child", '.') == ["child"]
    ensures Text.Split("child.name", '.') == ["child", "name"]
  {
    Text.SplitWithoutSeparator("bar", '.');
    Text.SplitWithoutSeparator("child", '.');
    Text.SplitWithoutSeparator("name", '.');
    Text.SplitAfterHead("child", '.', "name");
    assert "child" + ['.'] + "name" == "child.name";
  }

  /** ["bar", "child.name"] gives "bar" at the top and "name" inside a map under "child". */
  lemma BarChildNameExample(doc: Doc)
    ensures Project(["bar", "child.name"], doc) ==
      Ok(map["bar" := Copied(DotGet(doc, "bar")), "child" := Nested(map["name" := Copied(DotGet(doc, "child.name"))])])
  {
    var props := ["bar", "child.name"];
    var bar := Copied(DotGet(doc, "bar"));
    var name := Copied(DotGet(doc, "child.name"));
    SplitOfChildName();
    assert props[..1] == ["bar"];
    assert ["bar"][..0] == [];
    assert Project(["bar"], doc) == Ok(map["bar" := bar]);
    var empty: Data := map[];
    assert Insert(empty, [], "name", name) == Ok(map["name" := name]);
    assert Insert(map["bar" := bar], ["child"], "name", name) == Ok(map["bar" := bar, "child" := Nested(map["name" := name])]);
  }

  /** A value copied from the document is never walked into: ["child", "child.name"] copies
      the document's child (a struct in the source) and then cannot descend into it, which
      is the source's panic, whatever the document holds. */
  lemma CopiedValueBlocksPath(doc: Doc)
    ensures Project(["child", "child.name"], doc) == Err(DotPathConflict)
  {
    var props := ["child", "child.name"];
    var child := Copied(DotGet(doc, "child"));
    SplitOfChildName();
    assert props[..1] == ["child"];
    assert ["child"][..0] == [];
    assert Project(["child"], doc) == Ok(map["child" := child]);
  }

  /** Every failure of a projection is a path conflict. */
  lemma {:induction false} ProjectErrIsConflict(props: seq<string>, doc: Doc)
    ensures Project(props, doc).Err? ==> Project(props, doc) == Err(DotPathConflict)
    decreases |props|
  {
    if |props| > 0 {
      var init := props[..|props| - 1];
      ProjectErrIsConflict(init, doc);
      if Project(init, doc).Ok? {
        var data := Project(init, doc).value;
        var prop := props[|props| - 1];
        var split := Text.Split(prop, '.');
        if |split| != 1 {
          InsertFailsIffBlocked(data, split[..|split| - 1], split[|split| - 1], Copied(DotGet(doc, prop)));
        }
      }
    }
  }

  /** Once a prefix of the properties conflicts, the whole projection is that conflict:
      later properties are never added. */
  lemma {:induction false} ProjectStopsAtConflict(props: seq<string>, doc: Doc, k: nat)
    requires k <= |props|
    requires Project(props[..k], doc).Err?
    ensures Project(props, doc) == Err(DotPathConflict)
    decreases |props| - k
  {
    if k == |props| {
      assert props[..k] == props;
      ProjectErrIsConflict(props, doc);
    } else {
      var init := props[..|props| - 1];
      assert init[..k] == props[..k];
      ProjectStopsAtConflict(init, doc, k);
    }
  }
}
