/** What `NodeSchema.load` promises: which keys are reported missing or
    unknown, which bucket a value goes to, when an attribute, a property or
    a child is kept, and how the inline and tagged node kinds load the
    values they recognise. */
module NodeSchemaLaws {

  import opened Values
  import opened AstNodes
  import opened Schema
  import opened SchemaUtils
  import opened NodeSchema
  import opened InlineNode
  import opened TaggedNode

  /** An error is reported missing exactly for a required schema key the
      value does not own, with the value's own keys in the message. */
  lemma {:induction false} MissingKeysExactly(keys: seq<(string, KeyDetail)>, node: seq<(string, Value)>, context: AstContext, e: MatchingError)
    ensures e in MissingKeys(keys, node, context) <==>
      exists i :: 0 <= i < |keys| && keys[i].0 !in Keys(node) && !keys[i].1.optional
        && e == MatchingError(MissingKeyMessage(keys[i].0, node), context)
    ensures |MissingKeys(keys, node, context)| <= |keys|
    decreases |keys|
  {
    if keys != [] {
      MissingKeysExactly(keys[1..], node, context, e);
      if exists i :: 0 <= i < |keys[1..]| && keys[1..][i].0 !in Keys(node) && !keys[1..][i].1.optional
          && e == MatchingError(MissingKeyMessage(keys[1..][i].0, node), context) {
        var i :| 0 <= i < |keys[1..]| && keys[1..][i].0 !in Keys(node) && !keys[1..][i].1.optional
          && e == MatchingError(MissingKeyMessage(keys[1..][i].0, node), context);
        assert keys[i + 1] == keys[1..][i];
      }
      if exists i :: 0 <= i < |keys| && keys[i].0 !in Keys(node) && !keys[i].1.optional
          && e == MatchingError(MissingKeyMessage(keys[i].0, node), context) {
        var i :| 0 <= i < |keys| && keys[i].0 !in Keys(node) && !keys[i].1.optional
          && e == MatchingError(MissingKeyMessage(keys[i].0, node), context);
        if i > 0 {
          assert keys[1..][i - 1] == keys[i];
        }
      }
    }
  }

  /** The bucket table: null and undefined go nowhere and report nothing;
      a scalar is an attribute; an array is a child, or, under a key that
      does not take children, reports that and then is tried as a property;
      an object or function is a property. A value in a bucket its key does
      not target reports it. */
  lemma ApplyTargetActionCases(st: SchemaState, key: string, v: Value, detail: KeyDetail, context: AstContext, acc: ComponentLoadResult)
    requires Valid(st)
    ensures v.Undefined? || v.Null? ==> ApplyTargetAction(st, key, v, detail, context, acc, BucketFilters) == Success(acc)
    ensures InBucket(Attribute, v) ==> (
      ApplyTargetAction(st, key, v, detail, context, acc, BucketFilters)
        == if Attribute in detail.target then AddAttribute(key, v, detail, context, acc)
           else Success(AddError(acc, [MatchingError(WrongBucketMessage(key, Attribute, detail.target), context)])))
    ensures v.Arr? && Child in detail.target ==> (
      ApplyTargetAction(st, key, v, detail, context, acc, BucketFilters) == AddChild(st, key, v, detail, context, acc))
    ensures v.Arr? && Child !in detail.target ==> (
      ApplyTargetAction(st, key, v, detail, context, acc, BucketFilters)
        == var afterChild := AddError(acc, [MatchingError(WrongBucketMessage(key, Child, detail.target), context)]);
           if Property in detail.target then AddProperty(st, key, v, detail, context, afterChild)
           else Success(AddError(afterChild, [MatchingError(WrongBucketMessage(key, Property, detail.target), context)])))
    ensures (v.Obj? || v.Fn?) ==> (
      ApplyTargetAction(st, key, v, detail, context, acc, BucketFilters)
        == if Property in detail.target then AddProperty(st, key, v, detail, context, acc)
           else Success(AddError(acc, [MatchingError(WrongBucketMessage(key, Property, detail.target), context)])))
  {
    var f1, f2, f3 := BucketFilters[1..], BucketFilters[2..], BucketFilters[3..];
    assert f1 == [Child, Property] && f1[1..] == f2 && f2 == [Property] && f2[1..] == f3 && f3 == [];
    if v.Undefined? || v.Null? {
      assert ApplyTargetAction(st, key, v, detail, context, acc, f2) == Success(acc);
      assert ApplyTargetAction(st, key, v, detail, context, acc, f1) == Success(acc);
    } else if InBucket(Attribute, v) {
      var after := AddError(acc, [MatchingError(WrongBucketMessage(key, Attribute, detail.target), context)]);
      assert ApplyTargetAction(st, key, v, detail, context, after, f2) == Success(after);
      assert ApplyTargetAction(st, key, v, detail, context, after, f1) == Success(after);
    } else if v.Arr? && Child !in detail.target {
      var afterChild := AddError(acc, [MatchingError(WrongBucketMessage(key, Child, detail.target), context)]);
      var afterProperty := AddError(afterChild, [MatchingError(WrongBucketMessage(key, Property, detail.target), context)]);
      assert ApplyTargetAction(st, key, v, detail, context, afterProperty, f3) == Success(afterProperty);
      assert ApplyTargetAction(st, key, v, detail, context, afterChild, f2)
        == if Property in detail.target then AddProperty(st, key, v, detail, context, afterChild) else Success(afterProperty);
      assert ApplyTargetAction(st, key, v, detail, context, acc, f1) == ApplyTargetAction(st, key, v, detail, context, afterChild, f2);
    } else if v.Obj? || v.Fn? {
      var after := AddError(acc, [MatchingError(WrongBucketMessage(key, Property, detail.target), context)]);
      assert ApplyTargetAction(st, key, v, detail, context, after, f3) == Success(after);
      assert ApplyTargetAction(st, key, v, detail, context, acc, f2)
        == if Property in detail.target then AddProperty(st, key, v, detail, context, acc) else Success(after);
      assert ApplyTargetAction(st, key, v, detail, context, acc, f1) == ApplyTargetAction(st, key, v, detail, context, acc, f2);
    }
  }

  /** The errors for entries whose keys the schema does not know. */
  function UnknownKeyErrors(entries: seq<(string, Value)>, keys: seq<(string, KeyDetail)>, context: AstContext): (r: seq<MatchingError>)
    ensures |r| == |entries|
    decreases |entries|
  {
    if entries == [] then []
    else [MatchingError(UnknownKeyMessage(entries[0].0, keys), context)] + UnknownKeyErrors(entries[1..], keys, context)
  }

  lemma {:induction false} LoadEntriesUnknown(st: SchemaState, keys: seq<(string, KeyDetail)>, v: Value, entries: seq<(string, Value)>,
                                              context: AstContext, acc: ComponentLoadResult)
    requires Valid(st) && Bounded(v, entries)
    requires forall i :: 0 <= i < |entries| ==> entries[i].0 !in Keys(keys)
    ensures LoadEntries(st, keys, v, entries, context, acc) == Success(AddError(acc, UnknownKeyErrors(entries, keys, context)))
    decreases |entries|
  {
    if entries != [] {
      var error := MatchingError(UnknownKeyMessage(entries[0].0, keys), context);
      assert GetKey(keys, entries[0].0).None?;
      assert forall i :: 0 <= i < |entries[1..]| ==> entries[1..][i] == entries[i + 1];
      assert LoadEntries(st, keys, v, entries, context, acc) == LoadEntries(st, keys, v, entries[1..], context, AddError(acc, [error]));
      LoadEntriesUnknown(st, keys, v, entries[1..], context, AddError(acc, [error]));
      assert acc.errors + [error] + UnknownKeyErrors(entries[1..], keys, context) == acc.errors + UnknownKeyErrors(entries, keys, context);
    } else {
      assert acc.errors + [] == acc.errors;
    }
  }

  /** An object none of whose keys the schema knows loads into an empty
      component: first the missing required keys, then one error per key of
      the object, in sorted order. */
  lemma LoadUnknownKeys(st: SchemaState, typeName: string, keys: seq<(string, KeyDetail)>, identity: Identity,
                        es: seq<(string, Value)>, context: AstContext)
    requires Valid(st)
    requires forall i :: 0 <= i < |es| ==> es[i].0 !in Keys(keys)
    ensures Load(st, NodeSchema(typeName, keys, identity), Obj(es), context)
      == Success(ComponentLoadResult(NewComponent(typeName), MissingKeys(keys, es, context) + UnknownKeyErrors(SortByKey(es), keys, context)))
  {
    var v := Obj(es);
    EntriesBounded(v);
    SortBounded(v, es);
    SortByKeyPermutes(es);
    forall i | 0 <= i < |SortByKey(es)| ensures SortByKey(es)[i].0 !in Keys(keys) {
      var e := SortByKey(es)[i];
      assert e in multiset(SortByKey(es));
      var j :| 0 <= j < |es| && es[j] == e;
    }
    LoadEntriesUnknown(st, keys, v, SortByKey(es), context, ComponentLoadResult(NewComponent(typeName), MissingKeys(keys, es, context)));
  }

  /** An inline node loads the one-key object it recognises as that key's
      attribute when the validator accepts the value, and otherwise reports
      exactly the validator's errors. */
  lemma InlineLoad(st: SchemaState, typeName: string, identityValue: string, validate: NodeValidator, x: Value, context: AstContext)
    requires Valid(st) && InBucket(Attribute, x)
    ensures InlineHasIdentity(identityValue, Obj([(identityValue, x)])) == Success(true)
    ensures Load(st, NewInlineNode(typeName, identityValue, validate), Obj([(identityValue, x)]), context)
      == if validate(x, context) == []
         then Success(ComponentLoadResult(NewComponent(typeName).(attributes := [(identityValue, x)]), []))
         else Success(ComponentLoadResult(NewComponent(typeName), validate(x, context)))
  {
    var n := NewInlineNode(typeName, identityValue, validate);
    var es := [(identityValue, x)];
    InlineIdentityCases(identityValue, Obj(es));
    assert Keys(es) == [identityValue];
    KeyAt(n.keys, 0);
    assert MissingKeys(n.keys, es, context) == [];
    assert SortByKey(es) == es;
    EntriesBounded(Obj(es));
    var detail := n.keys[0].1;
    assert GetKey(n.keys, identityValue) == Some(detail);
    var start := ComponentLoadResult(NewComponent(typeName), []);
    ApplyTargetActionCases(st, identityValue, x, detail, context, start);
    assert es[1..] == [];
    var step := AddAttribute(identityValue, x, detail, context, start);
    assert Load(st, n, Obj(es), context) == LoadEntries(st, n.keys, Obj(es), es, context, start);
    assert LoadEntries(st, n.keys, Obj(es), es, context, start) == step;
    assert SetKey([], identityValue, x) == [(identityValue, x)];
    assert [] + validate(x, context) == validate(x, context);
  }

  /** The result `r` of the element loop of `addChild` started from `acc`
      with `done` already listed, over `n` elements: some list `kept` of at
      most `n` components follows `done` under the key, some errors `errs`
      follow the earlier ones, and no error was added exactly when every
      element was kept. */
  ghost predicate ChildrenShape(acc: ComponentLoadResult, r: ComponentLoadResult, key: string, done: seq<Component>, n: nat) {
    exists kept: seq<Component>, errs: seq<MatchingError> ::
      r == WithChildren(acc, key, done + kept, errs) && |kept| <= n && (errs == [] <==> |kept| == n)
  }

  /** `acc` with `children` placed under the key and `errs` appended. */
  function WithChildren(acc: ComponentLoadResult, key: string, children: seq<Component>, errs: seq<MatchingError>): ComponentLoadResult {
    ComponentLoadResult(acc.component.(children := SetKey(acc.component.children, key, children)), acc.errors + errs)
  }

  /** `addChild` always leaves a list under the key. It holds the components
      of the elements that loaded without errors, in order, after those
      already there; the elements that did not contribute their errors, so
      the list is complete exactly when no error was added. Nothing else of
      the component changes. */
  lemma {:induction false} LoadChildrenShape(st: SchemaState, key: string, items: seq<Value>, candidates: Enumerator, context: AstContext,
                                             bound: nat, acc: ComponentLoadResult, done: seq<Component>)
    requires Valid(st) && forall i :: 0 <= i < |items| ==> Depth(items[i]) < bound
    requires LoadChildren(st, key, items, candidates, context, bound, acc, done).Success?
    ensures ChildrenShape(acc, LoadChildren(st, key, items, candidates, context, bound, acc, done).value, key, done, |items|)
    decreases |items|
  {
    var r := LoadChildren(st, key, items, candidates, context, bound, acc, done);
    if items == [] {
      assert done + [] == done && acc.errors + [] == acc.errors;
      assert r.value == ComponentLoadResult(acc.component.(children := SetKey(acc.component.children, key, done)), acc.errors);
      assert r.value == WithChildren(acc, key, done + [], []);
    } else {
      var sub := LoadChildrenStep(st, key, items, candidates, context, bound, acc, done);
      var rest := items[1..];
      assert forall i :: 0 <= i < |rest| ==> rest[i] == items[i + 1];
      if sub.errors == [] {
        LoadChildrenShape(st, key, rest, candidates, context, bound, acc, done + [sub.component]);
        KeptShape(acc, r.value, key, done, sub.component, |rest|);
      } else {
        LoadChildrenShape(st, key, rest, candidates, context, bound, AddError(acc, sub.errors), done);
        FailedShape(acc, r.value, key, done, sub.errors, |rest|);
      }
    }
  }

  /** One turn of the element loop: the element's load succeeded and
      decides how the loop goes on. */
  lemma LoadChildrenStep(st: SchemaState, key: string, items: seq<Value>, candidates: Enumerator, context: AstContext,
                         bound: nat, acc: ComponentLoadResult, done: seq<Component>) returns (sub: ComponentLoadResult)
    requires Valid(st) && forall i :: 0 <= i < |items| ==> Depth(items[i]) < bound
    requires items != [] && LoadChildren(st, key, items, candidates, context, bound, acc, done).Success?
    ensures sub.errors == [] ==> (LoadChildren(st, key, items, candidates, context, bound, acc, done)
      == LoadChildren(st, key, items[1..], candidates, context, bound, acc, done + [sub.component]))
    ensures sub.errors != [] ==> (LoadChildren(st, key, items, candidates, context, bound, acc, done)
      == LoadChildren(st, key, items[1..], candidates, context, bound, AddError(acc, sub.errors), done))
  {
    var node := FindMatchingNode(st, items[0], candidates).value;
    sub := Load(st, node, items[0], AddTrace(context, key)).value;
  }

  lemma KeptShape(acc: ComponentLoadResult, r: ComponentLoadResult, key: string, done: seq<Component>, c: Component, n: nat)
    requires ChildrenShape(acc, r, key, done + [c], n)
    ensures ChildrenShape(acc, r, key, done, n + 1)
  {
    var kept, errs :| r == WithChildren(acc, key, done + [c] + kept, errs) && |kept| <= n && (errs == [] <==> |kept| == n);
    var kept' := [c] + kept;
    assert done + [c] + kept == done + kept';
    assert r == WithChildren(acc, key, done + kept', errs) && |kept'| <= n + 1 && (errs == [] <==> |kept'| == n + 1);
  }

  lemma FailedShape(acc: ComponentLoadResult, r: ComponentLoadResult, key: string, done: seq<Component>, more: seq<MatchingError>, n: nat)
    requires more != [] && ChildrenShape(AddError(acc, more), r, key, done, n)
    ensures ChildrenShape(acc, r, key, done, n + 1)
  {
    var kept, errs :| r == WithChildren(AddError(acc, more), key, done + kept, errs) && |kept| <= n && (errs == [] <==> |kept| == n);
    assert AddError(acc, more).errors + errs == acc.errors + (more + errs);
    assert r == WithChildren(acc, key, done + kept, more + errs) && |kept| <= n + 1 && (more + errs != [] <==> |kept| <= n + 1);
  }

  /** The load of one element of a child array, when it succeeds. */
  ghost function LoadedItem(st: SchemaState, key: string, item: Value, candidates: Enumerator, context: AstContext): ComponentLoadResult
    requires Valid(st)
  {
    match FindMatchingNode(st, item, candidates)
    case Failure(_) => ComponentLoadResult(NewComponent(""), [])
    case Success(node) =>
      match Load(st, node, item, AddTrace(context, key))
      case Failure(_) => ComponentLoadResult(NewComponent(""), [])
      case Success(sub) => sub
  }

  /** The element's matching node is found and loads it without throwing. */
  ghost predicate ItemLoads(st: SchemaState, key: string, item: Value, candidates: Enumerator, context: AstContext)
    requires Valid(st)
  {
    match FindMatchingNode(st, item, candidates)
    case Failure(_) => false
    case Success(node) => Load(st, node, item, AddTrace(context, key)).Success?
  }

  /** The components of the elements whose load reports no error, in order. */
  ghost function Kept(st: SchemaState, key: string, items: seq<Value>, candidates: Enumerator, context: AstContext): (r: seq<Component>)
    requires Valid(st)
    ensures |r| <= |items|
    decreases |items|
  {
    if items == [] then []
    else
      var sub := LoadedItem(st, key, items[0], candidates, context);
      (if sub.errors == [] then [sub.component] else []) + Kept(st, key, items[1..], candidates, context)
  }

  /** The errors of the elements whose load reports some, in order. */
  ghost function Errs(st: SchemaState, key: string, items: seq<Value>, candidates: Enumerator, context: AstContext): seq<MatchingError>
    requires Valid(st)
    decreases |items|
  {
    if items == [] then []
    else LoadedItem(st, key, items[0], candidates, context).errors + Errs(st, key, items[1..], candidates, context)
  }

  /** The element loop of `addChild` throws exactly when some element throws;
      otherwise the list under the key is `done` followed by the components
      of the elements that loaded without errors, and the errors of the
      others follow the earlier errors, element by element. */
  lemma {:induction false} LoadChildrenExact(st: SchemaState, key: string, items: seq<Value>, candidates: Enumerator, context: AstContext,
                                             bound: nat, acc: ComponentLoadResult, done: seq<Component>)
    requires Valid(st) && forall i :: 0 <= i < |items| ==> Depth(items[i]) < bound
    ensures LoadChildren(st, key, items, candidates, context, bound, acc, done).Success?
      <==> forall i :: 0 <= i < |items| ==> ItemLoads(st, key, items[i], candidates, context)
    ensures LoadChildren(st, key, items, candidates, context, bound, acc, done).Success? ==>
      LoadChildren(st, key, items, candidates, context, bound, acc, done).value
        == WithChildren(acc, key, done + Kept(st, key, items, candidates, context), Errs(st, key, items, candidates, context))
    decreases |items|
  {
    var r := LoadChildren(st, key, items, candidates, context, bound, acc, done);
    if items == [] {
      assert done + [] == done && acc.errors + [] == acc.errors;
    } else {
      var rest := items[1..];
      assert forall i :: 0 <= i < |rest| ==> rest[i] == items[i + 1];
      if !ItemLoads(st, key, items[0], candidates, context) {
        assert r.Failure?;
      } else {
        var sub := LoadedItem(st, key, items[0], candidates, context);
        var kept := Kept(st, key, rest, candidates, context);
        var errs := Errs(st, key, rest, candidates, context);
        assert (forall i :: 0 <= i < |items| ==> ItemLoads(st, key, items[i], candidates, context))
          <==> (forall i :: 0 <= i < |rest| ==> ItemLoads(st, key, rest[i], candidates, context));
        if sub.errors == [] {
          assert r == LoadChildren(st, key, rest, candidates, context, bound, acc, done + [sub.component]);
          LoadChildrenExact(st, key, rest, candidates, context, bound, acc, done + [sub.component]);
          AppendAssoc(done, [sub.component], kept);
          assert sub.errors + errs == errs;
        } else {
          assert r == LoadChildren(st, key, rest, candidates, context, bound, AddError(acc, sub.errors), done);
          LoadChildrenExact(st, key, rest, candidates, context, bound, AddError(acc, sub.errors), done);
          AppendAssoc(acc.errors, sub.errors, errs);
          assert [] + kept == kept;
        }
      }
    }
  }

  /** `addChild` of an array: without child candidates it throws; otherwise
      it throws exactly when some element throws, and else the key holds the
      components of the elements that loaded without errors, in order, and
      the errors of the others are appended. */
  lemma AddChildExact(st: SchemaState, key: string, v: Value, detail: KeyDetail, context: AstContext, acc: ComponentLoadResult)
    requires Valid(st) && v.Arr?
    ensures detail.child.None? ==>
      AddChild(st, key, v, detail, context, acc) == Failure(JsError("Children of " + key + " require a child ast node"))
    ensures detail.child.Some? ==> (AddChild(st, key, v, detail, context, acc).Success?
      <==> forall i :: 0 <= i < |v.items| ==> ItemLoads(st, key, v.items[i], detail.child.value, context))
    ensures detail.child.Some? && AddChild(st, key, v, detail, context, acc).Success? ==>
      AddChild(st, key, v, detail, context, acc).value
        == WithChildren(acc, key, Kept(st, key, v.items, detail.child.value, context), Errs(st, key, v.items, detail.child.value, context))
  {
    if detail.child.Some? {
      ItemsShallower(v);
      LoadChildrenExact(st, key, v.items, detail.child.value, context, Measure(v), acc, []);
      assert [] + Kept(st, key, v.items, detail.child.value, context) == Kept(st, key, v.items, detail.child.value, context);
    }
  }

  /** No error is added exactly when every element is kept. */
  lemma {:induction false} KeptAll(st: SchemaState, key: string, items: seq<Value>, candidates: Enumerator, context: AstContext)
    requires Valid(st)
    ensures Errs(st, key, items, candidates, context) == [] <==> |Kept(st, key, items, candidates, context)| == |items|
    decreases |items|
  {
    if items != [] {
      KeptAll(st, key, items[1..], candidates, context);
    }
  }

  /** Every element of a child array that loads leaves the list under the key. */
  lemma AddChildShape(st: SchemaState, key: string, v: Value, detail: KeyDetail, context: AstContext, acc: ComponentLoadResult)
    requires Valid(st) && v.Arr? && AddChild(st, key, v, detail, context, acc).Success?
    ensures ChildrenShape(acc, AddChild(st, key, v, detail, context, acc).value, key, [], |v.items|)
  {
    ItemsShallower(v);
    LoadChildrenShape(st, key, v.items, detail.child.value, context, Measure(v), acc, []);
  }

  /** A property value no candidate recognises is loaded by the error node:
      nothing is stored and one `Cannot find matching node` error is added,
      located one step deeper, under the key. */
  lemma PropertyWithoutMatch(st: SchemaState, key: string, v: Value, detail: KeyDetail, context: AstContext, acc: ComponentLoadResult)
    requires Valid(st) && InBucket(Property, v) && detail.property.Some?
    requires FindMatchingNodeOrUndefined(st, v, detail.property.value) == Success(None)
    ensures AddProperty(st, key, v, detail, context, acc)
      == Success(AddError(acc, [MatchingError(NoMatchMessage, AddTrace(context, key))]))
  {
    assert FindMatchingNode(st, v, detail.property.value) == Success(ErrorNode(NoMatchMessage));
  }

  /** Filing a key's value never changes the attribute stored under another key. */
  lemma {:induction false} ApplyKeepsOtherAttributes(st: SchemaState, key: string, v: Value, detail: KeyDetail, context: AstContext,
                                                     acc: ComponentLoadResult, filters: seq<Bucket>, k: string)
    requires Valid(st) && k != key
    requires ApplyTargetAction(st, key, v, detail, context, acc, filters).Success?
    ensures GetKey(ApplyTargetAction(st, key, v, detail, context, acc, filters).value.component.attributes, k)
      == GetKey(acc.component.attributes, k)
    decreases |filters|
  {
    if filters != [] {
      var b := filters[0];
      if !InBucket(b, v) {
        ApplyKeepsOtherAttributes(st, key, v, detail, context, acc, filters[1..], k);
      } else if b in detail.target {
        if b == Child {
          AddChildShape(st, key, v, detail, context, acc);
        }
      } else {
        var error := MatchingError(WrongBucketMessage(key, b, detail.target), context);
        ApplyKeepsOtherAttributes(st, key, v, detail, context, AddError(acc, [error]), filters[1..], k);
      }
    }
  }

  /** The attribute `k` holds `x` once the entries are loaded, when every
      entry under `k` holds `x`, `k` takes attributes checked by a validator
      accepting `x`, and `x` is stored already or some entry carries it. */
  lemma {:induction false} LoadEntriesStores(st: SchemaState, keys: seq<(string, KeyDetail)>, v: Value, entries: seq<(string, Value)>,
                                             context: AstContext, acc: ComponentLoadResult, k: string, x: Value, detail: KeyDetail)
    requires Valid(st) && Bounded(v, entries)
    requires GetKey(keys, k) == Some(detail) && InBucket(Attribute, x) && Attribute in detail.target
    requires detail.validate.Some? && detail.validate.value(x, context) == []
    requires forall i :: 0 <= i < |entries| && entries[i].0 == k ==> entries[i].1 == x
    requires GetKey(acc.component.attributes, k) == Some(x) || exists i :: 0 <= i < |entries| && entries[i].0 == k
    requires LoadEntries(st, keys, v, entries, context, acc).Success?
    ensures GetKey(LoadEntries(st, keys, v, entries, context, acc).value.component.attributes, k) == Some(x)
    decreases |entries|
  {
    if entries != [] {
      var (key, value) := entries[0];
      var rest := entries[1..];
      assert forall i :: 0 <= i < |rest| ==> rest[i] == entries[i + 1];
      var next: ComponentLoadResult;
      if GetKey(keys, key).None? {
        next := AddError(acc, [MatchingError(UnknownKeyMessage(key, keys), context)]);
      } else {
        next := ApplyTargetAction(st, key, value, GetKey(keys, key).value, context, acc, BucketFilters).value;
        if key == k {
          ApplyTargetActionCases(st, key, value, detail, context, acc);
        } else {
          ApplyKeepsOtherAttributes(st, key, value, GetKey(keys, key).value, context, acc, BucketFilters, k);
        }
      }
      assert LoadEntries(st, keys, v, entries, context, acc) == LoadEntries(st, keys, v, rest, context, next);
      if GetKey(next.component.attributes, k) != Some(x) {
        var i :| 0 <= i < |entries| && entries[i].0 == k;
        assert i > 0 && rest[i - 1].0 == k;
      }
      LoadEntriesStores(st, keys, v, rest, context, next, k, x, detail);
    }
  }

  /** Loading an object through a tagged node whose identity key holds the
      identity value keeps that value among the component's attributes, when
      the load succeeds and the caller did not redefine the identity key. */
  lemma TaggedLoadKeepsIdentity(st: SchemaState, typeName: string, identityValue: string, keys: seq<(string, KeyDetail)>,
                                identityKey: string, es: seq<(string, Value)>, context: AstContext)
    requires Valid(st) && UniqueKeys(keys) && identityKey !in Keys(keys)
    requires forall i :: 0 <= i < |es| && es[i].0 == identityKey ==> es[i].1 == Str(identityValue)
    requires exists i :: 0 <= i < |es| && es[i].0 == identityKey
    requires Load(st, NewTaggedNode(typeName, identityValue, keys, identityKey), Obj(es), context).Success?
    ensures GetKey(Load(st, NewTaggedNode(typeName, identityValue, keys, identityKey), Obj(es), context).value.component.attributes, identityKey)
      == Some(Str(identityValue))
  {
    var n := NewTaggedNode(typeName, identityValue, keys, identityKey);
    var detail := IdentityDetail(identityValue, identityKey);
    TaggedNodeKeys(typeName, identityValue, keys, identityKey, identityKey);
    var v := Obj(es);
    var sorted := SortByKey(es);
    EntriesBounded(v);
    SortBounded(v, es);
    SortByKeyPermutes(es);
    forall i | 0 <= i < |sorted| && sorted[i].0 == identityKey ensures sorted[i].1 == Str(identityValue) {
      assert sorted[i] in multiset(sorted);
      var j :| 0 <= j < |es| && es[j] == sorted[i];
    }
    var j :| 0 <= j < |es| && es[j].0 == identityKey;
    assert es[j] in multiset(sorted);
    var i :| 0 <= i < |sorted| && sorted[i] == es[j];
    var missing := MissingKeys(n.keys, es, context);
    LoadEntriesStores(st, n.keys, v, sorted, context, ComponentLoadResult(NewComponent(typeName), missing),
                      identityKey, Str(identityValue), detail);
  }
}
