/** `NodeSchema.load` as the source runs it: a `ComponentLoadResult` object
    is created per node and filled in place while the entries, the bucket
    filters and the child elements are walked in loops. Each method is
    proved to end in the state, or to throw the exception, that the
    functions of `NodeSchema` describe. */
module NodeSchemaLoader {

  import opened Values
  import opened AstNodes
  import opened Schema
  import opened SchemaUtils
  import opened ErrorNode
  import opened NodeSchema

  /** The mutable load result. */
  class LoadResult {
    var component: Component
    var errors: seq<MatchingError>

    constructor (component: Component, errors: seq<MatchingError>)
      ensures this.component == component && this.errors == errors
    {
      this.component := component;
      this.errors := errors;
    }

    function Snapshot(): ComponentLoadResult
      reads this
    {
      ComponentLoadResult(component, errors)
    }

    /** `result.errors.push(...more)`. */
    method PushErrors(more: seq<MatchingError>)
      modifies this
      ensures Snapshot() == AddError(old(Snapshot()), more)
    {
      errors := errors + more;
    }

    /** `result.component.attributes[key] = v`. */
    method SetAttribute(key: string, v: Value)
      modifies this
      ensures errors == old(errors)
      ensures component == old(component).(attributes := SetKey(old(component).attributes, key, v))
    {
      component := component.(attributes := SetKey(component.attributes, key, v));
    }

    /** `result.component.properties[key] = c`. */
    method SetProperty(key: string, c: Component)
      modifies this
      ensures errors == old(errors)
      ensures component == old(component).(properties := SetKey(old(component).properties, key, c))
    {
      component := component.(properties := SetKey(component.properties, key, c));
    }

    /** `result.component.children[key] = cs`. */
    method SetChildren(key: string, cs: seq<Component>)
      modifies this
      ensures errors == old(errors)
      ensures component == old(component).(children := SetKey(old(component).children, key, cs))
    {
      component := component.(children := SetKey(component.children, key, cs));
    }
  }

  /** What a step ended with: the exception it threw, or the result it left. */
  function Outcome(thrown: Option<Exception>, acc: ComponentLoadResult): Try<ComponentLoadResult> {
    match thrown
    case Some(e) => Failure(e)
    case None => Success(acc)
  }

  /** `detectMissingKeys(node, result, context)`. */
  method DetectMissingKeys(keys: seq<(string, KeyDetail)>, node: seq<(string, Value)>, result: LoadResult, context: AstContext)
    modifies result
    ensures result.Snapshot() == AddError(old(result.Snapshot()), MissingKeys(keys, node, context))
  {
    var i := 0;
    while i < |keys|
      invariant 0 <= i <= |keys|
      invariant AddError(result.Snapshot(), MissingKeys(keys[i..], node, context))
        == AddError(old(result.Snapshot()), MissingKeys(keys, node, context))
    {
      var (key, detail) := keys[i];
      assert keys[i..][1..] == keys[i + 1..];
      if key !in Keys(node) && !detail.optional {
        result.PushErrors([MatchingError(MissingKeyMessage(key, node), context)]);
      }
      i := i + 1;
    }
  }

  /** `load(node, context)`: a new result object, filled entry by entry. */
  method LoadNode(st: SchemaState, n: AstNode, v: Value, context: AstContext) returns (result: LoadResult, thrown: Option<Exception>)
    requires Valid(st)
    ensures fresh(result)
    ensures Outcome(thrown, result.Snapshot()) == Load(st, n, v, context)
    decreases Depth(v), 3, 0
  {
    match n
    case ErrorNode(message) =>
      var r := ErrorLoad(message, v, context);
      result := new LoadResult(r.component, r.errors);
      thrown := None;
    case NodeSchema(typeName, keys, _) =>
      result := new LoadResult(NewComponent(typeName), []);
      thrown := None;
      if v.Obj? || v.Fn? {
        DetectMissingKeys(keys, Entries(v), result, context);
      }
      if v.Undefined? || v.Null? {
        thrown := Some(JsTypeError("Cannot convert undefined or null to object"));
        return;
      }
      EntriesBounded(v);
      SortBounded(v, Entries(v));
      assert result.Snapshot() == ComponentLoadResult(NewComponent(typeName), if v.Obj? || v.Fn? then MissingKeys(keys, Entries(v), context) else []);
      thrown := LoadEntriesRun(st, keys, v, SortByKey(Entries(v)), result, context);
  }

  /** The loop of `load` over the sorted entries. */
  method LoadEntriesRun(st: SchemaState, keys: seq<(string, KeyDetail)>, v: Value, entries: seq<(string, Value)>,
                        result: LoadResult, context: AstContext) returns (thrown: Option<Exception>)
    requires Valid(st) && Bounded(v, entries)
    modifies result
    ensures Outcome(thrown, result.Snapshot()) == LoadEntries(st, keys, v, entries, context, old(result.Snapshot()))
    decreases Depth(v), 2, 0
  {
    thrown := None;
    var i := 0;
    while i < |entries|
      invariant 0 <= i <= |entries| && thrown.None?
      invariant Bounded(v, entries[i..])
      invariant LoadEntries(st, keys, v, entries[i..], context, result.Snapshot())
        == LoadEntries(st, keys, v, entries, context, old(result.Snapshot()))
    {
      var (key, value) := entries[i];
      assert entries[i..][1..] == entries[i + 1..];
      assert Measure(entries[i..][0].1) <= Depth(v);
      if key in Keys(keys) {
        ghost var before := result.Snapshot();
        thrown := ApplyTargetActionRun(st, key, value, GetKey(keys, key).value, result, context);
        if thrown.Some? {
          assert LoadEntries(st, keys, v, entries[i..], context, before) == Failure(thrown.value);
          return;
        }
      } else {
        result.PushErrors([MatchingError(UnknownKeyMessage(key, keys), context)]);
      }
      i := i + 1;
    }
  }

  /** `applyTargetAction(nodeKey, nodeValue, result, context)`: the bucket
      filters in order, stopping at the first one the key targets. */
  method ApplyTargetActionRun(st: SchemaState, key: string, v: Value, detail: KeyDetail, result: LoadResult, context: AstContext)
    returns (thrown: Option<Exception>)
    requires Valid(st)
    modifies result
    ensures Outcome(thrown, result.Snapshot()) == ApplyTargetAction(st, key, v, detail, context, old(result.Snapshot()), BucketFilters)
    decreases Measure(v), 1, 0
  {
    thrown := None;
    var i := 0;
    while i < |BucketFilters|
      invariant 0 <= i <= |BucketFilters| && thrown.None?
      invariant ApplyTargetAction(st, key, v, detail, context, result.Snapshot(), BucketFilters[i..])
        == ApplyTargetAction(st, key, v, detail, context, old(result.Snapshot()), BucketFilters)
    {
      var b := BucketFilters[i];
      assert BucketFilters[i..][1..] == BucketFilters[i + 1..];
      if InBucket(b, v) {
        if b in detail.target {
          match b {
            case Attribute => thrown := AddAttributeRun(key, v, detail, result, context);
            case Child => thrown := AddChildRun(st, key, v, detail, result, context);
            case Property => thrown := AddPropertyRun(st, key, v, detail, result, context);
          }
          break;
        } else {
          result.PushErrors([MatchingError(WrongBucketMessage(key, b, detail.target), context)]);
        }
      }
      i := i + 1;
    }
  }

  /** `addAttribute`. */
  method AddAttributeRun(key: string, v: Value, detail: KeyDetail, result: LoadResult, context: AstContext)
    returns (thrown: Option<Exception>)
    modifies result
    ensures Outcome(thrown, result.Snapshot()) == AddAttribute(key, v, detail, context, old(result.Snapshot()))
  {
    if detail.validate.None? {
      return Some(JsError("Attribute " + key + " require a validator"));
    }
    var errors := detail.validate.value(v, context);
    if |errors| == 0 {
      result.SetAttribute(key, v);
    } else {
      result.PushErrors(errors);
    }
    thrown := None;
  }

  /** `addProperty`. */
  method AddPropertyRun(st: SchemaState, key: string, v: Value, detail: KeyDetail, result: LoadResult, context: AstContext)
    returns (thrown: Option<Exception>)
    requires Valid(st) && InBucket(Property, v)
    modifies result
    ensures Outcome(thrown, result.Snapshot()) == AddProperty(st, key, v, detail, context, old(result.Snapshot()))
    decreases Measure(v), 0, 0
  {
    if detail.property.None? {
      return Some(JsError("Property " + key + " require a child ast node"));
    }
    var found := FindMatchingNode(st, v, detail.property.value);
    if found.Failure? {
      return Some(found.exception);
    }
    var sub, subThrown := LoadNode(st, found.value, v, AddTrace(context, key));
    if subThrown.Some? {
      return subThrown;
    }
    if |sub.errors| == 0 {
      result.SetProperty(key, sub.component);
    } else {
      result.PushErrors(sub.errors);
    }
    thrown := None;
  }

  /** `addChild`: the list is placed under the key first and grows as the
      elements load. */
  method AddChildRun(st: SchemaState, key: string, v: Value, detail: KeyDetail, result: LoadResult, context: AstContext)
    returns (thrown: Option<Exception>)
    requires Valid(st) && v.Arr?
    modifies result
    ensures Outcome(thrown, result.Snapshot()) == AddChild(st, key, v, detail, context, old(result.Snapshot()))
    decreases Measure(v), 0, 0
  {
    if detail.child.None? {
      return Some(JsError("Children of " + key + " require a child ast node"));
    }
    var candidates := detail.child.value;
    var children: seq<Component> := [];
    result.SetChildren(key, children);
    ItemsShallower(v);
    var i := 0;
    while i < |v.items|
      invariant 0 <= i <= |v.items|
      invariant result.component == old(result.component).(children := SetKey(old(result.component).children, key, children))
      invariant LoadChildren(st, key, v.items[i..], candidates, context, Measure(v), ComponentLoadResult(old(result.component), result.errors), children)
        == AddChild(st, key, v, detail, context, old(result.Snapshot()))
    {
      var item := v.items[i];
      ghost var acc := ComponentLoadResult(old(result.component), result.errors);
      LoadChildrenUnfold(st, key, v.items[i..], candidates, context, Measure(v), acc, children);
      assert v.items[i..][0] == item && v.items[i..][1..] == v.items[i + 1..];
      var found := FindMatchingNode(st, item, candidates);
      if found.Failure? {
        return Some(found.exception);
      }
      var sub, subThrown := LoadNode(st, found.value, item, AddTrace(context, key));
      if subThrown.Some? {
        return subThrown;
      }
      if |sub.errors| == 0 {
        SetKeyTwice(old(result.component).children, key, children, children + [sub.component]);
        children := children + [sub.component];
        result.SetChildren(key, children);
        assert ComponentLoadResult(old(result.component), result.errors) == acc;
      } else {
        result.PushErrors(sub.errors);
        assert ComponentLoadResult(old(result.component), result.errors) == AddError(acc, sub.errors);
      }
      i := i + 1;
    }
    thrown := None;
  }

  /** One element of the `addChild` loop: a failed match or a thrown load
      ends it, otherwise the element's component is kept or its errors are
      added. */
  lemma LoadChildrenUnfold(st: SchemaState, key: string, items: seq<Value>, candidates: Enumerator, context: AstContext,
                         bound: nat, acc: ComponentLoadResult, done: seq<Component>)
    requires Valid(st) && items != [] && forall i :: 0 <= i < |items| ==> Depth(items[i]) < bound
    ensures FindMatchingNode(st, items[0], candidates).Failure? ==>
      LoadChildren(st, key, items, candidates, context, bound, acc, done) == Failure(FindMatchingNode(st, items[0], candidates).exception)
    ensures FindMatchingNode(st, items[0], candidates).Success? ==>
      var loaded := Load(st, FindMatchingNode(st, items[0], candidates).value, items[0], AddTrace(context, key));
      && (loaded.Failure? ==> LoadChildren(st, key, items, candidates, context, bound, acc, done) == Failure(loaded.exception))
      && (loaded.Success? && loaded.value.errors == [] ==>
            LoadChildren(st, key, items, candidates, context, bound, acc, done)
              == LoadChildren(st, key, items[1..], candidates, context, bound, acc, done + [loaded.value.component]))
      && (loaded.Success? && loaded.value.errors != [] ==>
            LoadChildren(st, key, items, candidates, context, bound, acc, done)
              == LoadChildren(st, key, items[1..], candidates, context, bound, AddError(acc, loaded.value.errors), done))
  {
  }
}
