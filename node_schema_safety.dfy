/** When `NodeSchema.load` throws. It throws for a key that targets a bucket
    without the validator, property candidates or child candidates that
    bucket needs, for an id or tag reference the schema cannot resolve, and
    for a `null` or `undefined` it is asked to load or to recognise, which
    an element of a child array reaches. Everywhere else it reports
    problems as errors and returns. */
module NodeSchemaSafety {

  import opened Values
  import opened AstNodes
  import opened Schema
  import opened SchemaUtils
  import opened NodeSchema
  import opened TaggedNode

  /** A node whose every key has what its target buckets need, and whose
      candidate enumerations resolve and yield only such nodes. */
  ghost predicate WellFormed(st: SchemaState, n: AstNode)
    requires Valid(st)
    decreases n, 2
  {
    n.NodeSchema? ==> forall i :: 0 <= i < |n.keys| ==> DetailWellFormed(st, n.keys[i].1)
  }

  ghost predicate DetailWellFormed(st: SchemaState, d: KeyDetail)
    requires Valid(st)
    decreases d, 1
  {
    (Attribute in d.target ==> d.validate.Some?)
    && (Child in d.target ==> d.child.Some? && CandidatesReady(st, d.child.value))
    && (Property in d.target ==> d.property.Some? && CandidatesReady(st, d.property.value))
  }

  ghost predicate CandidatesReady(st: SchemaState, e: Enumerator)
    requires Valid(st)
    decreases e, 0
  {
    Enumerate(st, e).failure.None?
    && (e.Yields? ==> forall j :: 0 <= j < |e.nodes| ==> WellFormed(st, e.nodes[j]))
  }

  /** Every node the schema files is well formed. */
  ghost predicate SchemaWellFormed(st: SchemaState)
    requires Valid(st)
  {
    (forall id :: id in st.byId ==> WellFormed(st, st.byId[id]))
    && (forall tag, j :: tag in st.byTag && 0 <= j < |st.byTag[tag]| ==> WellFormed(st, st.byTag[tag][j]))
  }

  /** No array, at any depth, holds `null` or `undefined`. */
  ghost predicate NoNullItems(v: Value)
    decreases v
  {
    match v
    case Arr(items) => forall i :: 0 <= i < |items| ==> !items[i].Undefined? && !items[i].Null? && NoNullItems(items[i])
    case Obj(es) => forall i :: 0 <= i < |es| ==> NoNullItems(es[i].1)
    case _ => true
  }

  ghost predicate AllWellFormed(st: SchemaState, nodes: seq<AstNode>)
    requires Valid(st)
  {
    forall j :: 0 <= j < |nodes| ==> WellFormed(st, nodes[j])
  }

  lemma {:induction false} NodeIdsWellFormed(st: SchemaState, ids: seq<string>)
    requires Valid(st) && SchemaWellFormed(st)
    ensures AllWellFormed(st, EnumerateNodeIds(st, ids).nodes)
    decreases |ids|
  {
    if ids != [] && ids[0] in st.byId {
      NodeIdsWellFormed(st, ids[1..]);
      var rest := EnumerateNodeIds(st, ids[1..]).nodes;
      assert EnumerateNodeIds(st, ids).nodes == [st.byId[ids[0]]] + rest;
    }
  }

  lemma {:induction false} NodeTagsWellFormed(st: SchemaState, tags: seq<string>)
    requires Valid(st) && SchemaWellFormed(st)
    ensures AllWellFormed(st, EnumerateNodeTags(st, tags).nodes)
    decreases |tags|
  {
    if tags != [] && tags[0] in st.byTag {
      NodeTagsWellFormed(st, tags[1..]);
      var rest := EnumerateNodeTags(st, tags[1..]).nodes;
      var list := st.byTag[tags[0]];
      assert EnumerateNodeTags(st, tags).nodes == list + rest;
      forall j | 0 <= j < |list + rest| ensures WellFormed(st, (list + rest)[j]) {
        if j < |list| {
          assert (list + rest)[j] == st.byTag[tags[0]][j];
        } else {
          assert (list + rest)[j] == rest[j - |list|];
        }
      }
    }
  }

  lemma {:induction false} NodesOfWellFormed(st: SchemaState, ids: seq<string>)
    requires Valid(st) && SchemaWellFormed(st) && forall id :: id in ids ==> id in st.byId
    ensures AllWellFormed(st, NodesOf(ids, st.byId))
    decreases |ids|
  {
    if ids != [] {
      NodesOfWellFormed(st, ids[1..]);
    }
  }

  lemma {:induction false} ListsOfWellFormed(st: SchemaState, tags: seq<string>)
    requires Valid(st) && SchemaWellFormed(st) && forall tag :: tag in tags ==> tag in st.byTag
    ensures AllWellFormed(st, ListsOf(tags, st.byTag))
    decreases |tags|
  {
    if tags != [] {
      ListsOfWellFormed(st, tags[1..]);
      var list, rest := st.byTag[tags[0]], ListsOf(tags[1..], st.byTag);
      forall j | 0 <= j < |list + rest| ensures WellFormed(st, (list + rest)[j]) {
        if j < |list| {
          assert (list + rest)[j] == st.byTag[tags[0]][j];
        } else {
          assert (list + rest)[j] == rest[j - |list|];
        }
      }
    }
  }

  /** Whatever a ready enumeration yields is well formed. */
  lemma EnumeratedWellFormed(st: SchemaState, e: Enumerator)
    requires Valid(st) && SchemaWellFormed(st) && CandidatesReady(st, e)
    ensures AllWellFormed(st, Enumerate(st, e).nodes)
  {
    match e
    case RefIds(ids) => NodeIdsWellFormed(st, ids);
    case RefTags(tags) => NodeTagsWellFormed(st, tags);
    case RefEverything =>
      NodesOfWellFormed(st, st.ids);
      ListsOfWellFormed(st, st.tags);
      var a, b := NodesOf(st.ids, st.byId), ListsOf(st.tags, st.byTag);
      forall j | 0 <= j < |a + b| ensures WellFormed(st, (a + b)[j]) {
        if j < |a| {
          assert (a + b)[j] == a[j];
        } else {
          assert (a + b)[j] == b[j - |a|];
        }
      }
    case Yields(_) =>
  }

  /** Recognising a value that is not null or undefined never throws. */
  lemma {:induction false} FirstMatchSucceeds(v: Value, nodes: seq<AstNode>)
    requires !v.Undefined? && !v.Null?
    ensures FirstMatch(v, nodes, None).Success?
    decreases |nodes|
  {
    if nodes != [] {
      FirstMatchSucceeds(v, nodes[1..]);
    }
  }

  /** A ready enumeration finds a well-formed node for any value that is not
      null or undefined. */
  lemma FindMatchingNodeReady(st: SchemaState, v: Value, e: Enumerator)
    requires Valid(st) && SchemaWellFormed(st) && CandidatesReady(st, e)
    requires !v.Undefined? && !v.Null?
    ensures FindMatchingNode(st, v, e).Success? && WellFormed(st, FindMatchingNode(st, v, e).value)
  {
    var en := Enumerate(st, e);
    FirstMatchSucceeds(v, en.nodes);
    EnumeratedWellFormed(st, e);
    if FirstMatch(v, en.nodes, None).value.Some? {
      FirstMatchFound(v, en.nodes, None);
    }
  }

  /** A key of a well-formed node found by name is well formed. */
  lemma {:induction false} GetKeyWellFormed(st: SchemaState, keys: seq<(string, KeyDetail)>, key: string)
    requires Valid(st) && forall i :: 0 <= i < |keys| ==> DetailWellFormed(st, keys[i].1)
    requires GetKey(keys, key).Some?
    ensures DetailWellFormed(st, GetKey(keys, key).value)
    decreases |keys|
  {
    if keys[0].0 != key {
      assert forall i :: 0 <= i < |keys[1..]| ==> keys[1..][i] == keys[i + 1];
      GetKeyWellFormed(st, keys[1..], key);
    }
  }

  /** Loading a value that is not null or undefined, and holds no null in
      any array, through a well-formed node of a well-formed schema never
      throws. */
  lemma {:induction false} LoadSucceeds(st: SchemaState, n: AstNode, v: Value, context: AstContext)
    requires Valid(st) && SchemaWellFormed(st) && WellFormed(st, n)
    requires !v.Undefined? && !v.Null? && NoNullItems(v)
    ensures Load(st, n, v, context).Success?
    decreases Depth(v), 3, 0
  {
    if n.NodeSchema? {
      var missing := if v.Obj? || v.Fn? then MissingKeys(n.keys, Entries(v), context) else [];
      EntriesBounded(v);
      SortBounded(v, Entries(v));
      SortedEntriesNoNulls(v);
      LoadEntriesSucceeds(st, n.keys, v, SortByKey(Entries(v)), context, ComponentLoadResult(NewComponent(n.typeName), missing));
    }
  }

  /** The entries of a value without null array elements hold none either. */
  lemma SortedEntriesNoNulls(v: Value)
    requires NoNullItems(v)
    ensures forall i :: 0 <= i < |SortByKey(Entries(v))| ==> NoNullItems(SortByKey(Entries(v))[i].1)
  {
    SortByKeyPermutes(Entries(v));
    forall i | 0 <= i < |SortByKey(Entries(v))| ensures NoNullItems(SortByKey(Entries(v))[i].1) {
      var e := SortByKey(Entries(v))[i];
      assert e in multiset(SortByKey(Entries(v)));
      var j :| 0 <= j < |Entries(v)| && Entries(v)[j] == e;
    }
  }

  lemma {:induction false} LoadEntriesSucceeds(st: SchemaState, keys: seq<(string, KeyDetail)>, v: Value, entries: seq<(string, Value)>,
                                               context: AstContext, acc: ComponentLoadResult)
    requires Valid(st) && SchemaWellFormed(st) && Bounded(v, entries)
    requires forall i :: 0 <= i < |keys| ==> DetailWellFormed(st, keys[i].1)
    requires forall i :: 0 <= i < |entries| ==> NoNullItems(entries[i].1)
    ensures LoadEntries(st, keys, v, entries, context, acc).Success?
    decreases Depth(v), 2, |entries|
  {
    if entries != [] {
      var (key, value) := entries[0];
      assert Measure(value) <= Depth(v);
      assert forall i :: 0 <= i < |entries[1..]| ==> entries[1..][i] == entries[i + 1];
      match GetKey(keys, key)
      case None =>
        LoadEntriesSucceeds(st, keys, v, entries[1..], context, AddError(acc, [MatchingError(UnknownKeyMessage(key, keys), context)]));
      case Some(detail) =>
        GetKeyWellFormed(st, keys, key);
        ApplySucceeds(st, key, value, detail, context, acc, BucketFilters);
        var next := ApplyTargetAction(st, key, value, detail, context, acc, BucketFilters).value;
        LoadEntriesSucceeds(st, keys, v, entries[1..], context, next);
    }
  }

  lemma {:induction false} ApplySucceeds(st: SchemaState, key: string, v: Value, detail: KeyDetail, context: AstContext,
                                         acc: ComponentLoadResult, filters: seq<Bucket>)
    requires Valid(st) && SchemaWellFormed(st) && DetailWellFormed(st, detail) && NoNullItems(v)
    ensures ApplyTargetAction(st, key, v, detail, context, acc, filters).Success?
    decreases Measure(v), 1, |filters|
  {
    if filters != [] {
      var b := filters[0];
      if !InBucket(b, v) {
        ApplySucceeds(st, key, v, detail, context, acc, filters[1..]);
      } else if b in detail.target {
        match b
        case Attribute =>
        case Child => AddChildSucceeds(st, key, v, detail, context, acc);
        case Property => AddPropertySucceeds(st, key, v, detail, context, acc);
      } else {
        var error := MatchingError(WrongBucketMessage(key, b, detail.target), context);
        ApplySucceeds(st, key, v, detail, context, AddError(acc, [error]), filters[1..]);
      }
    }
  }

  lemma {:induction false} AddPropertySucceeds(st: SchemaState, key: string, v: Value, detail: KeyDetail, context: AstContext,
                                               acc: ComponentLoadResult)
    requires Valid(st) && SchemaWellFormed(st) && DetailWellFormed(st, detail) && NoNullItems(v)
    requires InBucket(Property, v) && Property in detail.target
    ensures AddProperty(st, key, v, detail, context, acc).Success?
    decreases Measure(v), 0, 0
  {
    FindMatchingNodeReady(st, v, detail.property.value);
    LoadSucceeds(st, FindMatchingNode(st, v, detail.property.value).value, v, AddTrace(context, key));
  }

  lemma {:induction false} AddChildSucceeds(st: SchemaState, key: string, v: Value, detail: KeyDetail, context: AstContext,
                                            acc: ComponentLoadResult)
    requires Valid(st) && SchemaWellFormed(st) && DetailWellFormed(st, detail) && NoNullItems(v)
    requires v.Arr? && Child in detail.target
    ensures AddChild(st, key, v, detail, context, acc).Success?
    decreases Measure(v), 0, |v.items| + 1
  {
    ItemsShallower(v);
    LoadChildrenSucceeds(st, key, v.items, detail.child.value, context, Measure(v), acc, []);
  }

  lemma {:induction false} LoadChildrenSucceeds(st: SchemaState, key: string, items: seq<Value>, candidates: Enumerator, context: AstContext,
                                                bound: nat, acc: ComponentLoadResult, done: seq<Component>)
    requires Valid(st) && SchemaWellFormed(st) && CandidatesReady(st, candidates)
    requires forall i :: 0 <= i < |items| ==> Depth(items[i]) < bound
    requires forall i :: 0 <= i < |items| ==> !items[i].Undefined? && !items[i].Null? && NoNullItems(items[i])
    ensures LoadChildren(st, key, items, candidates, context, bound, acc, done).Success?
    decreases bound, 0, |items|
  {
    if items != [] {
      FindMatchingNodeReady(st, items[0], candidates);
      var node := FindMatchingNode(st, items[0], candidates).value;
      LoadSucceeds(st, node, items[0], AddTrace(context, key));
      var sub := Load(st, node, items[0], AddTrace(context, key)).value;
      assert forall i :: 0 <= i < |items[1..]| ==> items[1..][i] == items[i + 1];
      if sub.errors == [] {
        LoadChildrenSucceeds(st, key, items[1..], candidates, context, bound, acc, done + [sub.component]);
      } else {
        LoadChildrenSucceeds(st, key, items[1..], candidates, context, bound, AddError(acc, sub.errors), done);
      }
    }
  }

  /** The precondition on null elements cannot be dropped: a `null` element
      of a child array throws the TypeError of reading a property of null as
      soon as a tagged candidate is asked about it. */
  lemma NullChildThrows(st: SchemaState, key: string, tagged: AstNode, context: AstContext, acc: ComponentLoadResult)
    requires Valid(st) && tagged.NodeSchema? && tagged.identity.Tagged?
    ensures AddChild(st, key, Arr([Null]), KeyDetail([Child], Some(Yields([tagged])), None, None, false), context, acc)
      == Failure(JsTypeError("Cannot read properties of null"))
  {
    var v := Arr([Null]);
    ItemsShallower(v);
    assert FindMatchingNode(st, Null, Yields([tagged])) == Failure(JsTypeError("Cannot read properties of null"));
  }

  /** A key that targets the attribute bucket without a validator throws as
      soon as a scalar reaches it. */
  lemma MissingValidatorThrows(st: SchemaState, key: string, v: Value, target: seq<Bucket>, context: AstContext, acc: ComponentLoadResult)
    requires Valid(st) && InBucket(Attribute, v) && Attribute in target
    ensures ApplyTargetAction(st, key, v, KeyDetail(target, None, None, None, false), context, acc, BucketFilters)
      == Failure(JsError("Attribute " + key + " require a validator"))
  {
  }
}
