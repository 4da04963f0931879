/** `Schema`: the registry of AST nodes, by id and by tag. `addNode`
    updates the two maps in place; `refIds`, `refTags` and `refEverything`
    hand out enumerators (`Enumerator` values) that are resolved against
    the maps only when enumerated, so an unknown id or tag raises its error
    when the enumeration reaches it. Map iteration follows first insertion. */
module Schema {

  import opened Values
  import opened AstNodes

  /** `AstNodeDetails`: the node an entry builds and the tags it files it under. */
  datatype NodeDetails = NodeDetails(node: AstNode, tags: seq<string>)

  /** The two maps of a schema; `ids` and `tags` are their key orders. */
  datatype SchemaState = SchemaState(
    ids: seq<string>,
    byId: map<string, AstNode>,
    tags: seq<string>,
    byTag: map<string, seq<AstNode>>)

  predicate Distinct(s: seq<string>) {
    forall i, j :: 0 <= i < j < |s| ==> s[i] != s[j]
  }

  /** The key orders list each key of their map exactly once. */
  ghost predicate Valid(st: SchemaState) {
    Distinct(st.ids) && (forall id :: id in st.byId <==> id in st.ids) &&
    Distinct(st.tags) && (forall tag :: tag in st.byTag <==> tag in st.tags)
  }

  const EmptySchema := SchemaState([], map[], [], map[])

  /** The nodes filed under a tag; none for an unknown tag. */
  function Tagged(st: SchemaState, tag: string): seq<AstNode> {
    if tag in st.byTag then st.byTag[tag] else []
  }

  /** One pass of the tag loop of `addNode`: append to an existing list or
      start a new one. */
  function FileUnder(st: SchemaState, node: AstNode, tag: string): SchemaState {
    if tag in st.byTag then st.(byTag := st.byTag[tag := st.byTag[tag] + [node]])
    else st.(tags := st.tags + [tag], byTag := st.byTag[tag := [node]])
  }

  function FileUnderAll(st: SchemaState, node: AstNode, tags: seq<string>): SchemaState
    decreases |tags|
  {
    if tags == [] then st else FileUnderAll(FileUnder(st, node, tags[0]), node, tags[1..])
  }

  /** `map.set(id, node)`: a known id keeps its place. */
  function SetId(st: SchemaState, id: string, node: AstNode): SchemaState {
    st.(ids := if id in st.byId then st.ids else st.ids + [id], byId := st.byId[id := node])
  }

  /** The state after `addNode(id, node, tags)`. */
  function Added(st: SchemaState, id: string, node: AstNode, tags: seq<string>): SchemaState {
    FileUnderAll(SetId(st, id, node), node, tags)
  }

  /** The state the constructor builds from the entries of its dictionary. */
  function Built(entries: seq<(string, NodeDetails)>): SchemaState
    decreases |entries|
  {
    if entries == [] then EmptySchema
    else
      var last := entries[|entries| - 1];
      Added(Built(entries[..|entries| - 1]), last.0, last.1.node, last.1.tags)
  }

  /** How many times a tag is listed. */
  function Count(tags: seq<string>, tag: string): nat
    decreases |tags|
  {
    if tags == [] then 0 else (if tags[0] == tag then 1 else 0) + Count(tags[1..], tag)
  }

  function Repeat(node: AstNode, n: nat): (r: seq<AstNode>)
    ensures |r| == n
    decreases n
  {
    if n == 0 then [] else [node] + Repeat(node, n - 1)
  }

  /** `getNodeById(id)`. */
  function GetNodeById(st: SchemaState, id: string): (r: Try<AstNode>)
    ensures r.Failure? <==> id !in st.byId
    ensures r.Failure? ==> r.exception == JsError("No such node id " + id)
  {
    if id !in st.byId then Failure(JsError("No such node id " + id)) else Success(st.byId[id])
  }

  /** `getNodeByTag(tag)`. */
  function GetNodeByTag(st: SchemaState, tag: string): (r: Try<seq<AstNode>>)
    ensures r.Failure? <==> tag !in st.byTag
    ensures r.Failure? ==> r.exception == JsError("No such node tag " + tag)
  {
    if tag !in st.byTag then Failure(JsError("No such node tag " + tag)) else Success(st.byTag[tag])
  }

  /** What a generator yields before it stops: its nodes, then the error it
      raised if it did not run to completion. */
  datatype Enumeration = Enumeration(nodes: seq<AstNode>, failure: Option<Exception>)

  function Prepend(nodes: seq<AstNode>, rest: Enumeration): Enumeration {
    Enumeration(nodes + rest.nodes, rest.failure)
  }

  /** `enumerateNodeIds(ids)`. */
  function EnumerateNodeIds(st: SchemaState, ids: seq<string>): Enumeration
    decreases |ids|
  {
    if ids == [] then Enumeration([], None)
    else match GetNodeById(st, ids[0])
      case Failure(e) => Enumeration([], Some(e))
      case Success(node) => Prepend([node], EnumerateNodeIds(st, ids[1..]))
  }

  /** `enumerateNodeTags(tags)`. */
  function EnumerateNodeTags(st: SchemaState, tags: seq<string>): Enumeration
    decreases |tags|
  {
    if tags == [] then Enumeration([], None)
    else match GetNodeByTag(st, tags[0])
      case Failure(e) => Enumeration([], Some(e))
      case Success(nodes) => Prepend(nodes, EnumerateNodeTags(st, tags[1..]))
  }

  /** The nodes of `map.values()` for the keys `ids`, in that order. */
  function NodesOf(ids: seq<string>, byId: map<string, AstNode>): seq<AstNode>
    requires forall id :: id in ids ==> id in byId
    decreases |ids|
  {
    if ids == [] then [] else [byId[ids[0]]] + NodesOf(ids[1..], byId)
  }

  function ListsOf(tags: seq<string>, byTag: map<string, seq<AstNode>>): seq<AstNode>
    requires forall tag :: tag in tags ==> tag in byTag
    decreases |tags|
  {
    if tags == [] then [] else byTag[tags[0]] + ListsOf(tags[1..], byTag)
  }

  /** `enumerateEverythings()`: every node by id, then every tag list. */
  function EnumerateEverything(st: SchemaState): Enumeration
    requires Valid(st)
  {
    Enumeration(NodesOf(st.ids, st.byId) + ListsOf(st.tags, st.byTag), None)
  }

  /** Enumerating what `refIds`, `refTags`, `refEverything` or a fixed
      generator hands out. */
  function Enumerate(st: SchemaState, e: Enumerator): Enumeration
    requires Valid(st)
  {
    match e
    case RefIds(ids) => EnumerateNodeIds(st, ids)
    case RefTags(tags) => EnumerateNodeTags(st, tags)
    case RefEverything => EnumerateEverything(st)
    case Yields(nodes) => Enumeration(nodes, None)
  }

  class Schema {
    var ids: seq<string>
    var byId: map<string, AstNode>
    var tags: seq<string>
    var byTag: map<string, seq<AstNode>>

    function State(): SchemaState
      reads this
    {
      SchemaState(ids, byId, tags, byTag)
    }

    /** `new Schema(schema)`: every entry added in dictionary order. */
    constructor(entries: seq<(string, NodeDetails)>)
      ensures State() == Built(entries)
    {
      ids, byId, tags, byTag := [], map[], [], map[];
      new;
      var i := 0;
      while i < |entries|
        invariant 0 <= i <= |entries|
        invariant State() == Built(entries[..i])
      {
        assert entries[..i + 1][..i] == entries[..i];
        var _ := AddNode(entries[i].0, entries[i].1.node, entries[i].1.tags);
        i := i + 1;
      }
      assert entries[..i] == entries;
    }

    /** `addNode(id, node, tags)`: files the node under its id, replacing any
      node of that id, and appends it to the list of each tag. */
    method AddNode(id: string, node: AstNode, nodeTags: seq<string>) returns (self: Schema)
      modifies this
      ensures self == this
      ensures State() == Added(old(State()), id, node, nodeTags)
    {
      if id !in byId {
        ids := ids + [id];
      }
      byId := byId[id := node];
      ghost var start := State();
      var i := 0;
      while i < |nodeTags|
        invariant 0 <= i <= |nodeTags|
        invariant FileUnderAll(State(), node, nodeTags[i..]) == FileUnderAll(start, node, nodeTags)
      {
        assert nodeTags[i..][1..] == nodeTags[i + 1..];
        var tag := nodeTags[i];
        if tag in byTag {
          byTag := byTag[tag := byTag[tag] + [node]];
        } else {
          tags := tags + [tag];
          byTag := byTag[tag := [node]];
        }
        i := i + 1;
      }
      self := this;
    }
  }

  /** Filing under tags changes neither the ids nor the id map. */
  lemma {:induction false} FileUnderAllKeepsIds(st: SchemaState, node: AstNode, tags: seq<string>)
    ensures FileUnderAll(st, node, tags).ids == st.ids
    ensures FileUnderAll(st, node, tags).byId == st.byId
    decreases |tags|
  {
    if tags != [] {
      FileUnderAllKeepsIds(FileUnder(st, node, tags[0]), node, tags[1..]);
    }
  }

  /** Each listing of a tag appends the node once more to that tag's list;
      the other tags' lists are untouched. */
  lemma {:induction false} FileUnderAllTagged(st: SchemaState, node: AstNode, tags: seq<string>, tag: string)
    ensures Tagged(FileUnderAll(st, node, tags), tag) == Tagged(st, tag) + Repeat(node, Count(tags, tag))
    decreases |tags|
  {
    if tags != [] {
      var next := FileUnder(st, node, tags[0]);
      FileUnderAllTagged(next, node, tags[1..], tag);
      if tags[0] == tag {
        assert Tagged(next, tag) == Tagged(st, tag) + [node];
        assert Repeat(node, Count(tags, tag)) == [node] + Repeat(node, Count(tags[1..], tag));
      } else {
        assert Tagged(next, tag) == Tagged(st, tag);
      }
    }
  }

  /** Filing under tags keeps the tag order consistent with the tag map. */
  lemma {:induction false} FileUnderAllValid(st: SchemaState, node: AstNode, tags: seq<string>)
    requires Valid(st)
    ensures Valid(FileUnderAll(st, node, tags))
    decreases |tags|
  {
    if tags != [] {
      FileUnderAllValid(FileUnder(st, node, tags[0]), node, tags[1..]);
    }
  }

  /** `addNode` keeps the schema consistent, makes `id` name `node` (other
      ids unchanged, a known id keeping its place) and appends `node` to the
      list of each tag once per listing. */
  lemma AddedSpec(st: SchemaState, id: string, node: AstNode, tags: seq<string>, tag: string)
    requires Valid(st)
    ensures Valid(Added(st, id, node, tags))
    ensures Added(st, id, node, tags).byId == st.byId[id := node]
    ensures Added(st, id, node, tags).ids == if id in st.byId then st.ids else st.ids + [id]
    ensures Tagged(Added(st, id, node, tags), tag) == Tagged(st, tag) + Repeat(node, Count(tags, tag))
  {
    var st1 := SetId(st, id, node);
    assert Valid(st1) by {
      if id !in st.byId {
        forall i, j | 0 <= i < j < |st1.ids| ensures st1.ids[i] != st1.ids[j] {
          if j == |st.ids| {
            assert st1.ids[i] == st.ids[i];
          }
        }
      }
    }
    FileUnderAllValid(st1, node, tags);
    FileUnderAllKeepsIds(st1, node, tags);
    FileUnderAllTagged(st1, node, tags, tag);
  }

  /** `refIds(...ids)` enumerates the nodes of the ids in order when all are
      known; otherwise it yields the nodes before the first unknown id and
      then raises `No such node id` for it. */
  lemma EnumerateNodeIdsSpec(st: SchemaState, ids: seq<string>)
    ensures (forall id :: id in ids ==> id in st.byId) ==>
      EnumerateNodeIds(st, ids) == Enumeration(NodesOf(ids, st.byId), None)
    ensures forall k :: 0 <= k < |ids| && ids[k] !in st.byId && (forall j :: 0 <= j < k ==> ids[j] in st.byId) ==>
      EnumerateNodeIds(st, ids) == Enumeration(NodesOf(ids[..k], st.byId), Some(JsError("No such node id " + ids[k])))
  {
    if forall id :: id in ids ==> id in st.byId {
      EnumerateNodeIdsKnown(st, ids);
    }
    forall k | 0 <= k < |ids| && ids[k] !in st.byId && (forall j :: 0 <= j < k ==> ids[j] in st.byId)
      ensures EnumerateNodeIds(st, ids) == Enumeration(NodesOf(ids[..k], st.byId), Some(JsError("No such node id " + ids[k])))
    {
      EnumerateNodeIdsUnknown(st, ids, k);
    }
  }

  lemma {:induction false} EnumerateNodeIdsKnown(st: SchemaState, ids: seq<string>)
    requires forall id :: id in ids ==> id in st.byId
    ensures EnumerateNodeIds(st, ids) == Enumeration(NodesOf(ids, st.byId), None)
    decreases |ids|
  {
    if ids != [] {
      assert forall id :: id in ids[1..] ==> id in ids;
      EnumerateNodeIdsKnown(st, ids[1..]);
    }
  }

  lemma {:induction false} EnumerateNodeIdsUnknown(st: SchemaState, ids: seq<string>, k: nat)
    requires k < |ids| && ids[k] !in st.byId
    requires forall j :: 0 <= j < k ==> ids[j] in st.byId
    ensures EnumerateNodeIds(st, ids) == Enumeration(NodesOf(ids[..k], st.byId), Some(JsError("No such node id " + ids[k])))
    decreases k
  {
    if k > 0 {
      assert ids[1..][k - 1] == ids[k];
      assert forall j :: 0 <= j < k - 1 ==> ids[1..][j] == ids[j + 1];
      EnumerateNodeIdsUnknown(st, ids[1..], k - 1);
      assert ids[..k][1..] == ids[1..][..k - 1];
    }
  }

  /** `refTags(...tags)` enumerates the lists of the tags in order when all
      are known. */
  lemma {:induction false} EnumerateNodeTagsKnown(st: SchemaState, tags: seq<string>)
    requires forall tag :: tag in tags ==> tag in st.byTag
    ensures EnumerateNodeTags(st, tags) == Enumeration(ListsOf(tags, st.byTag), None)
    decreases |tags|
  {
    if tags != [] {
      EnumerateNodeTagsKnown(st, tags[1..]);
    }
  }

  /** Otherwise it yields the lists before the first unknown tag and then
      raises `No such node tag` for it. */
  lemma {:induction false} EnumerateNodeTagsUnknown(st: SchemaState, tags: seq<string>, k: nat)
    requires k < |tags| && tags[k] !in st.byTag
    requires forall j :: 0 <= j < k ==> tags[j] in st.byTag
    ensures EnumerateNodeTags(st, tags) == Enumeration(ListsOf(tags[..k], st.byTag), Some(JsError("No such node tag " + tags[k])))
    decreases k
  {
    if k > 0 {
      var rest := tags[1..];
      assert rest[k - 1] == tags[k];
      assert forall j :: 0 <= j < k - 1 ==> rest[j] == tags[j + 1];
      EnumerateNodeTagsUnknown(st, rest, k - 1);
      assert tags[..k][1..] == rest[..k - 1];
      assert ListsOf(tags[..k], st.byTag) == st.byTag[tags[0]] + ListsOf(rest[..k - 1], st.byTag);
    }
  }

  /** The constructor's schema is consistent. */
  lemma {:induction false} BuiltValid(entries: seq<(string, NodeDetails)>)
    ensures Valid(Built(entries))
    decreases |entries|
  {
    if entries != [] {
      var last := entries[|entries| - 1];
      BuiltValid(entries[..|entries| - 1]);
      AddedSpec(Built(entries[..|entries| - 1]), last.0, last.1.node, last.1.tags, "");
    }
  }

  /** Two nodes filed under the same tag, in that order: `refIds` of both
      ids and `refTags` of the tag each enumerate them in insertion order. */
  lemma TwoNodesInOrder(idA: string, a: AstNode, idB: string, b: AstNode, tag: string)
    requires idA != idB
    ensures EnumerateNodeIds(Built([(idA, NodeDetails(a, [tag])), (idB, NodeDetails(b, [tag]))]), [idA, idB])
      == Enumeration([a, b], None)
    ensures EnumerateNodeTags(Built([(idA, NodeDetails(a, [tag])), (idB, NodeDetails(b, [tag]))]), [tag])
      == Enumeration([a, b], None)
    ensures Valid(Built([(idA, NodeDetails(a, [tag])), (idB, NodeDetails(b, [tag]))]))
      && EnumerateEverything(Built([(idA, NodeDetails(a, [tag])), (idB, NodeDetails(b, [tag]))]))
         == Enumeration([a, b, a, b], None)
  {
    var entries := [(idA, NodeDetails(a, [tag])), (idB, NodeDetails(b, [tag]))];
    assert entries[..1] == [(idA, NodeDetails(a, [tag]))];
    assert entries[..1][..0] == [];
    assert [tag][1..] == [];
    var s1 := SetId(EmptySchema, idA, a);
    assert FileUnderAll(s1, a, [tag]) == FileUnder(s1, a, tag);
    var st1 := Added(EmptySchema, idA, a, [tag]);
    assert st1 == SchemaState([idA], map[idA := a], [tag], map[tag := [a]]);
    var s2 := SetId(st1, idB, b);
    assert FileUnderAll(s2, b, [tag]) == FileUnder(s2, b, tag);
    var st2 := Added(st1, idB, b, [tag]);
    assert [a] + [b] == [a, b];
    assert s2.ids == [idA, idB];
    assert st2.ids == [idA, idB];
    assert st2.byTag == map[tag := [a, b]];
    assert st2.tags == [tag];
    assert Built(entries[..1]) == st1;
    assert Built(entries) == st2;
    assert [idA, idB][1..] == [idB] && [idB][1..] == [];
    assert EnumerateNodeIds(st2, [idB]) == Enumeration([b], None);
    BuiltValid(entries);
    assert st2.byId == map[idA := a, idB := b];
    assert NodesOf([idB], st2.byId) == [b];
    assert NodesOf(st2.ids, st2.byId) == [a, b];
    assert ListsOf(st2.tags, st2.byTag) == [a, b];
    assert [a, b] + [a, b] == [a, b, a, b];
  }
}
