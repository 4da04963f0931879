/** `NodeSchema.load`, as functions: the specification the imperative
    loader in `node_schema_loader.dfy` is proved against.

    Loading a value through a node schema starts from an empty component of
    the schema's type; a plain object (or a function) first gets one error
    per required key it lacks. Then the value's entries are visited in key
    order. An entry whose key the schema does not know adds an error; a
    known key's value is put in the first bucket (attribute, child,
    property) it belongs to that the key targets, with one error for each
    earlier bucket it belongs to that the key does not target. Sub-values
    are loaded through the first candidate node that recognises them, with
    the key added to the context, and kept only when they load without
    errors. */
module NodeSchema {

  import opened Values
  import opened AstNodes
  import opened Schema
  import opened SchemaUtils
  import opened ErrorNode

  /** The bucket filters: `isString || isNumber || isBoolean`,
      `Array.isArray` and lodash `isObject`. */
  predicate InBucket(b: Bucket, v: Value) {
    match b
    case Attribute => v.Str? || v.Num? || v.Bool?
    case Child => v.Arr?
    case Property => v.Arr? || v.Obj? || v.Fn?
  }

  /** The filters in the order they are tried. */
  const BucketFilters: seq<Bucket> := [Attribute, Child, Property]

  function BucketName(b: Bucket): string {
    match b
    case Attribute => "attribute"
    case Child => "child"
    case Property => "property"
  }

  function BucketNames(bs: seq<Bucket>): (r: seq<string>)
    ensures |r| == |bs|
  {
    seq(|bs|, i requires 0 <= i < |bs| => BucketName(bs[i]))
  }

  function UnknownKeyMessage(key: string, keys: seq<(string, KeyDetail)>): string {
    "No key '" + key + "' in possible keys {" + JoinWith(Keys(keys), ", ") + "}"
  }

  function WrongBucketMessage(key: string, b: Bucket, targets: seq<Bucket>): string {
    "Key'" + key + "' cannot be a " + BucketName(b) + " only " + JoinWith(BucketNames(targets), ", ")
  }

  function MissingKeyMessage(key: string, node: seq<(string, Value)>): string {
    "Missing required key '" + key + "' in " + JoinWith(Keys(node), ", ") + "."
  }

  /** The order `localeCompare` sorts keys in, taken as the lexicographic
      order of their characters. */
  predicate KeyLessEq(a: string, b: string)
    decreases |a|
  {
    if a == [] then true
    else if b == [] then false
    else if a[0] != b[0] then a[0] < b[0]
    else KeyLessEq(a[1..], b[1..])
  }

  predicate SortedByKey(es: seq<(string, Value)>) {
    forall i, j :: 0 <= i < j < |es| ==> KeyLessEq(es[i].0, es[j].0)
  }

  function InsertByKey(e: (string, Value), sorted: seq<(string, Value)>): seq<(string, Value)>
    decreases |sorted|
  {
    if sorted == [] || KeyLessEq(e.0, sorted[0].0) then [e] + sorted
    else [sorted[0]] + InsertByKey(e, sorted[1..])
  }

  /** `entries.sort((a, b) => a[0].localeCompare(b[0]))`. */
  function SortByKey(es: seq<(string, Value)>): seq<(string, Value)>
    decreases |es|
  {
    if es == [] then [] else InsertByKey(es[0], SortByKey(es[1..]))
  }

  function Max(a: nat, b: nat): nat {
    if a < b then b else a
  }

  /** The number of entries of an array or a plain object. */
  function Width(v: Value): nat {
    match v
    case Arr(items) => |items|
    case Obj(es) => |es|
    case _ => 0
  }

  /** The `i`-th element of an array or value of a plain object. */
  function Member(v: Value, i: nat): Value
    requires (v.Arr? || v.Obj?) && i < Width(v)
  {
    if v.Arr? then v.items[i] else v.entries[i].1
  }

  /** How deeply arrays and plain objects nest in a value. */
  function Depth(v: Value): nat
    decreases v, Width(v) + 1
  {
    if v.Arr? || v.Obj? then 1 + DepthFrom(v, 0) else 0
  }

  function DepthFrom(v: Value, i: nat): nat
    requires v.Arr? || v.Obj?
    decreases v, Width(v) - i
  {
    if i >= Width(v) then 0
    else
      var c := if v.Arr? then v.items[i] else v.entries[i].1;
      Max(Depth(c), DepthFrom(v, i + 1))
  }

  /** What a value weighs in the termination argument: a value that can go
      through `addProperty` or `addChild` weighs more than everything
      inside it; any other value weighs nothing. */
  function Measure(v: Value): nat {
    if InBucket(Property, v) then Depth(v) + 1 else 0
  }

  /** Entries of `v` whose values weigh no more than `v` itself. */
  predicate Bounded(v: Value, entries: seq<(string, Value)>) {
    forall i :: 0 <= i < |entries| ==> Measure(entries[i].1) <= Depth(v)
  }

  /** `detectMissingKeys`: one error per required schema key the value does
      not own, in the schema's key order. */
  function MissingKeys(keys: seq<(string, KeyDetail)>, node: seq<(string, Value)>, context: AstContext): seq<MatchingError>
    decreases |keys|
  {
    if keys == [] then []
    else
      (if keys[0].0 !in Keys(node) && !keys[0].1.optional
       then [MatchingError(MissingKeyMessage(keys[0].0, node), context)] else [])
      + MissingKeys(keys[1..], node, context)
  }

  function AddError(acc: ComponentLoadResult, errors: seq<MatchingError>): ComponentLoadResult {
    acc.(errors := acc.errors + errors)
  }

  /** `addAttribute`: the value is stored under its key when the validator
      finds nothing wrong; otherwise the validator's errors are recorded and
      the component is left as it was. A key without validator throws. */
  function AddAttribute(key: string, v: Value, detail: KeyDetail, context: AstContext, acc: ComponentLoadResult): (r: Try<ComponentLoadResult>)
    ensures r.Failure? <==> detail.validate.None?
    ensures r.Failure? ==> r.exception == JsError("Attribute " + key + " require a validator")
    ensures r.Success? && detail.validate.value(v, context) == [] ==>
      r.value.errors == acc.errors && GetKey(r.value.component.attributes, key) == Some(v)
      && r.value.component.(attributes := acc.component.attributes) == acc.component
    ensures r.Success? && detail.validate.value(v, context) != [] ==>
      r.value == AddError(acc, detail.validate.value(v, context))
  {
    match detail.validate
    case None => Failure(JsError("Attribute " + key + " require a validator"))
    case Some(validate) =>
      var errors := validate(v, context);
      if errors == [] then
        Success(acc.(component := acc.component.(attributes := SetKey(acc.component.attributes, key, v))))
      else Success(AddError(acc, errors))
  }

  /** `load(node, context)` of the node `n`. */
  function Load(st: SchemaState, n: AstNode, v: Value, context: AstContext): Try<ComponentLoadResult>
    requires Valid(st)
    decreases Depth(v), 3, 0
  {
    match n
    case ErrorNode(message) => Success(ErrorLoad(message, v, context))
    case NodeSchema(typeName, keys, _) =>
      if v.Undefined? || v.Null? then Failure(JsTypeError("Cannot convert undefined or null to object"))
      else
        var missing := if v.Obj? || v.Fn? then MissingKeys(keys, Entries(v), context) else [];
        EntriesBounded(v);
        SortBounded(v, Entries(v));
        LoadEntries(st, keys, v, SortByKey(Entries(v)), context, ComponentLoadResult(NewComponent(typeName), missing))
  }

  /** The loop of `load` over the sorted entries of `v`. */
  function LoadEntries(st: SchemaState, keys: seq<(string, KeyDetail)>, v: Value, entries: seq<(string, Value)>,
                       context: AstContext, acc: ComponentLoadResult): Try<ComponentLoadResult>
    requires Valid(st) && Bounded(v, entries)
    decreases Depth(v), 2, |entries|
  {
    if entries == [] then Success(acc)
    else
      var (key, value) := entries[0];
      var step := match GetKey(keys, key)
        case None => Success(AddError(acc, [MatchingError(UnknownKeyMessage(key, keys), context)]))
        case Some(detail) => ApplyTargetAction(st, key, value, detail, context, acc, BucketFilters);
      match step
      case Failure(e) => Failure(e)
      case Success(next) => LoadEntries(st, keys, v, entries[1..], context, next)
  }

  /** `applyTargetAction`: the filters from `filters` on. */
  function ApplyTargetAction(st: SchemaState, key: string, v: Value, detail: KeyDetail, context: AstContext,
                             acc: ComponentLoadResult, filters: seq<Bucket>): Try<ComponentLoadResult>
    requires Valid(st)
    decreases Measure(v), 1, |filters|
  {
    if filters == [] then Success(acc)
    else
      var b := filters[0];
      if !InBucket(b, v) then ApplyTargetAction(st, key, v, detail, context, acc, filters[1..])
      else if b in detail.target then
        match b
        case Attribute => AddAttribute(key, v, detail, context, acc)
        case Child => AddChild(st, key, v, detail, context, acc)
        case Property => AddProperty(st, key, v, detail, context, acc)
      else
        var error := MatchingError(WrongBucketMessage(key, b, detail.target), context);
        ApplyTargetAction(st, key, v, detail, context, AddError(acc, [error]), filters[1..])
  }

  /** `addProperty`: the value is loaded through the first candidate that
      recognises it (an error node when none does), one step deeper in the
      context; the component is kept only when that load has no errors. */
  function AddProperty(st: SchemaState, key: string, v: Value, detail: KeyDetail, context: AstContext,
                       acc: ComponentLoadResult): (r: Try<ComponentLoadResult>)
    requires Valid(st) && InBucket(Property, v)
    decreases Measure(v), 0, 0
    ensures detail.property.None? ==> r == Failure(JsError("Property " + key + " require a child ast node"))
    ensures detail.property.Some? ==> (r.Success? <==>
      FindMatchingNode(st, v, detail.property.value).Success?
      && Load(st, FindMatchingNode(st, v, detail.property.value).value, v, AddTrace(context, key)).Success?)
    ensures r.Success? ==>
      var sub := Load(st, FindMatchingNode(st, v, detail.property.value).value, v, AddTrace(context, key)).value;
      (sub.errors == [] ==>
        r.value.errors == acc.errors && GetKey(r.value.component.properties, key) == Some(sub.component)
        && r.value.component.(properties := acc.component.properties) == acc.component)
      && (sub.errors != [] ==> r.value == AddError(acc, sub.errors))
  {
    match detail.property
    case None => Failure(JsError("Property " + key + " require a child ast node"))
    case Some(candidates) =>
      match FindMatchingNode(st, v, candidates)
      case Failure(e) => Failure(e)
      case Success(node) =>
        match Load(st, node, v, AddTrace(context, key))
        case Failure(e) => Failure(e)
        case Success(sub) =>
          if sub.errors == [] then
            Success(acc.(component := acc.component.(properties := SetKey(acc.component.properties, key, sub.component))))
          else Success(AddError(acc, sub.errors))
  }

  /** `addChild`: the key always gets a list; each element is loaded like a
      property and its component appended when it has no errors. */
  function AddChild(st: SchemaState, key: string, v: Value, detail: KeyDetail, context: AstContext,
                    acc: ComponentLoadResult): Try<ComponentLoadResult>
    requires Valid(st) && v.Arr?
    decreases Measure(v), 0, |v.items| + 1
  {
    match detail.child
    case None => Failure(JsError("Children of " + key + " require a child ast node"))
    case Some(candidates) =>
      ItemsShallower(v);
      LoadChildren(st, key, v.items, candidates, context, Measure(v), acc, [])
  }

  /** The element loop of `addChild`; `done` holds the components kept so far. */
  function LoadChildren(st: SchemaState, key: string, items: seq<Value>, candidates: Enumerator, context: AstContext,
                        bound: nat, acc: ComponentLoadResult, done: seq<Component>): Try<ComponentLoadResult>
    requires Valid(st) && forall i :: 0 <= i < |items| ==> Depth(items[i]) < bound
    decreases bound, 0, |items|
  {
    if items == [] then
      Success(acc.(component := acc.component.(children := SetKey(acc.component.children, key, done))))
    else
      match FindMatchingNode(st, items[0], candidates)
      case Failure(e) => Failure(e)
      case Success(node) =>
        match Load(st, node, items[0], AddTrace(context, key))
        case Failure(e) => Failure(e)
        case Success(sub) =>
          if sub.errors == [] then LoadChildren(st, key, items[1..], candidates, context, bound, acc, done + [sub.component])
          else LoadChildren(st, key, items[1..], candidates, context, bound, AddError(acc, sub.errors), done)
  }

  /** Each member of an array or plain object nests less deeply than it. */
  lemma {:induction false} DepthFromBound(v: Value, i: nat, j: nat)
    requires (v.Arr? || v.Obj?) && i <= j < Width(v)
    ensures Depth(Member(v, j)) <= DepthFrom(v, i)
    decreases j - i
  {
    if i < j {
      DepthFromBound(v, i + 1, j);
    }
  }

  lemma MemberShallower(v: Value, j: nat)
    requires (v.Arr? || v.Obj?) && j < Width(v)
    ensures Depth(Member(v, j)) < Depth(v)
  {
    DepthFromBound(v, 0, j);
  }

  lemma ItemsShallower(v: Value)
    requires v.Arr?
    ensures forall i :: 0 <= i < |v.items| ==> Depth(v.items[i]) < Measure(v)
  {
    forall i | 0 <= i < |v.items| ensures Depth(v.items[i]) < Measure(v) {
      MemberShallower(v, i);
    }
  }

  /** The entries `Object.entries` gives weigh no more than the value. */
  lemma EntriesBounded(v: Value)
    ensures Bounded(v, Entries(v))
  {
    if v.Arr? || v.Obj? {
      forall i | 0 <= i < |Entries(v)| ensures Measure(Entries(v)[i].1) <= Depth(v) {
        MemberShallower(v, i);
      }
    }
  }

  /** Sorting keeps the entries bounded. */
  lemma SortBounded(v: Value, es: seq<(string, Value)>)
    requires Bounded(v, es)
    ensures Bounded(v, SortByKey(es))
  {
    SortByKeyPermutes(es);
    forall i | 0 <= i < |SortByKey(es)| ensures Measure(SortByKey(es)[i].1) <= Depth(v) {
      var e := SortByKey(es)[i];
      assert e in multiset(SortByKey(es));
      assert e in es;
      var j :| 0 <= j < |es| && es[j] == e;
    }
  }

  lemma {:induction false} InsertByKeyPermutes(e: (string, Value), sorted: seq<(string, Value)>)
    ensures multiset(InsertByKey(e, sorted)) == multiset([e] + sorted)
    decreases |sorted|
  {
    if sorted != [] && !KeyLessEq(e.0, sorted[0].0) {
      InsertByKeyPermutes(e, sorted[1..]);
      assert sorted == [sorted[0]] + sorted[1..];
    }
  }

  /** Sorting only reorders the entries. */
  lemma {:induction false} SortByKeyPermutes(es: seq<(string, Value)>)
    ensures multiset(SortByKey(es)) == multiset(es)
    ensures |SortByKey(es)| == |es|
    decreases |es|
  {
    if es != [] {
      SortByKeyPermutes(es[1..]);
      InsertByKeyPermutes(es[0], SortByKey(es[1..]));
      assert es == [es[0]] + es[1..];
    }
    assert |SortByKey(es)| == |multiset(SortByKey(es))|;
  }

  /** The key order is total. */
  lemma {:induction false} KeyLessEqTotal(a: string, b: string)
    ensures KeyLessEq(a, b) || KeyLessEq(b, a)
    decreases |a|
  {
    if a != [] && b != [] && a[0] == b[0] {
      KeyLessEqTotal(a[1..], b[1..]);
    }
  }

  /** The key order is transitive. */
  lemma {:induction false} KeyLessEqTransitive(a: string, b: string, c: string)
    requires KeyLessEq(a, b) && KeyLessEq(b, c)
    ensures KeyLessEq(a, c)
    decreases |a|
  {
    if a != [] && b != [] && c != [] && a[0] == b[0] && b[0] == c[0] {
      KeyLessEqTransitive(a[1..], b[1..], c[1..]);
    }
  }

  lemma {:induction false} InsertByKeySorted(e: (string, Value), sorted: seq<(string, Value)>)
    requires SortedByKey(sorted)
    ensures SortedByKey(InsertByKey(e, sorted))
    decreases |sorted|
  {
    if sorted == [] {
    } else if KeyLessEq(e.0, sorted[0].0) {
      forall x | x in sorted ensures KeyLessEq(e.0, x.0) {
        var j :| 0 <= j < |sorted| && sorted[j] == x;
        if j > 0 {
          KeyLessEqTransitive(e.0, sorted[0].0, x.0);
        }
      }
      ConsSorted(e, sorted);
    } else {
      var rest := InsertByKey(e, sorted[1..]);
      assert SortedByKey(sorted[1..]) by {
        forall i, j | 0 <= i < j < |sorted[1..]| ensures KeyLessEq(sorted[1..][i].0, sorted[1..][j].0) {
          assert sorted[1..][i] == sorted[i + 1] && sorted[1..][j] == sorted[j + 1];
        }
      }
      InsertByKeySorted(e, sorted[1..]);
      InsertByKeyPermutes(e, sorted[1..]);
      KeyLessEqTotal(e.0, sorted[0].0);
      forall x | x in rest ensures KeyLessEq(sorted[0].0, x.0) {
        assert x in multiset([e] + sorted[1..]);
        if x != e {
          assert x in sorted[1..];
          var j :| 0 <= j < |sorted[1..]| && sorted[1..][j] == x;
          assert sorted[j + 1] == x;
        }
      }
      ConsSorted(sorted[0], rest);
    }
  }

  /** An entry whose key comes no later than every key of a sorted list
      can go in front of it. */
  lemma ConsSorted(h: (string, Value), rest: seq<(string, Value)>)
    requires SortedByKey(rest)
    requires forall x :: x in rest ==> KeyLessEq(h.0, x.0)
    ensures SortedByKey([h] + rest)
  {
    forall i, j | 0 <= i < j < |[h] + rest| ensures KeyLessEq(([h] + rest)[i].0, ([h] + rest)[j].0) {
      assert ([h] + rest)[j] == rest[j - 1];
      if i == 0 {
        assert rest[j - 1] in rest;
      } else {
        assert ([h] + rest)[i] == rest[i - 1];
      }
    }
  }

  /** `load` visits the entries in key order. */
  lemma {:induction false} SortByKeySorted(es: seq<(string, Value)>)
    ensures SortedByKey(SortByKey(es))
    decreases |es|
  {
    if es != [] {
      SortByKeySorted(es[1..]);
      InsertByKeySorted(es[0], SortByKey(es[1..]));
    }
  }
}
