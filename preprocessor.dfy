/** The directive preprocessor (`ActionDetailsPreprocessor`), as functions
    on values that return the rewritten tree and the store the directives
    left. `Engine.Preprocess` is the walk with its loops, proved equal to
    `Preprocess` here.

    A directive is a plain object with exactly one key, one of `$expr`,
    `expr$`, `$eval`, `eval$`, `$$eval`, `eval$$`. `$expr` is replaced by the
    value of its expression; `expr$` by a callable that binds its
    parameters and evaluates the expression when called. The `eval` family
    runs host code (`host` with the directive name as tag). */
module Preprocessor {

  import opened Values
  import opened Tokenizer
  import opened Parser
  import opened ParserLaws
  import opened Runtime
  import opened Evaluator

  datatype Rewrite = Rewritten(value: Value, store: Store) | RewriteFailed(error: Error, store: Store)

  const DirectiveNames: set<string> := {"$expr", "expr$", "$eval", "eval$", "$$eval", "eval$$"}

  /** A plain object with exactly one key, and that key a directive name. */
  predicate IsDirective(v: Value) {
    v.Obj? && |v.entries| == 1 && v.entries[0].0 in DirectiveNames
  }

  /** `replaceSpecialKey` on the value found at the key: `None` when it is
      not a directive (the function returns false and changes nothing),
      otherwise the replacement and the store after computing it. */
  function SpecialKey(st: Store, v: Value, rid: RuntimeId, host: Host, fuel: nat): (r: Option<Rewrite>)
    ensures r.None? <==> !IsDirective(v)
    ensures r.Some? ==> SameShape(st, r.value.store)
    ensures r.Some? && v.entries[0].0 == "expr$" ==> r.value == Rewritten(Fn(Deferred(rid, v.entries[0].1)), st)
  {
    if !IsDirective(v) then None
    else
      var (key, source) := v.entries[0];
      if key == "$expr" then
        var e := ResolveExpression(st, source, rid, host, fuel);
        Some(match e.outcome
             case Ok(x) => Rewritten(x, e.store)
             case Throw(err) => RewriteFailed(err, e.store))
      else if key == "expr$" then Some(Rewritten(Fn(Deferred(rid, source)), st))
      else if key == "eval$" || key == "eval$$" then Some(Rewritten(Fn(DeferredScript(rid, key, source)), st))
      else
        Some(match host(key, [source])
             case Ok(x) => Rewritten(x, st)
             case Throw(err) => RewriteFailed(err, st))
  }

  /** The values `Object.entries` visits in an array or a plain object. */
  function Children(v: Value): seq<Value> {
    match v
    case Arr(items) => items
    case Obj(es) => seq(|es|, i requires 0 <= i < |es| => es[i].1)
    case _ => []
  }

  /** The container `v` with its children replaced, keys and order kept. */
  function Rebuild(v: Value, children: seq<Value>): (r: Value)
    requires |children| == |Children(v)|
    ensures Children(r) == (if v.Arr? || v.Obj? then children else [])
  {
    match v
    case Arr(_) => Arr(children)
    case Obj(es) => Obj(seq(|es|, i requires 0 <= i < |es| => (es[i].0, children[i])))
    case _ => v
  }

  /** Keys of a plain object; the index count of an array. */
  predicate SameLayout(v: Value, w: Value) {
    match v
    case Arr(items) => w.Arr? && |w.items| == |items|
    case Obj(es) => w.Obj? && |w.entries| == |es| && forall i :: 0 <= i < |es| ==> w.entries[i].0 == es[i].0
    case _ => w == v
  }

  predicate IsContainer(v: Value) {
    v.Arr? || v.Obj?
  }

  /** The loop of `replaceRuntimeSymbolInObject`/`...InArray` from the
      `i`-th entry on, `done` holding the new values of the entries before.
      A replaced entry is not descended into; a non-directive array or
      plain object is walked; any other value is left as it is. */
  function WalkFrom(st: Store, v: Value, i: nat, done: seq<Value>, rid: RuntimeId, host: Host, fuel: nat): (r: Rewrite)
    requires IsContainer(v) && i <= |Children(v)| && |done| == i
    ensures SameShape(st, r.store)
    ensures r.Rewritten? ==> SameLayout(v, r.value)
    decreases v, |Children(v)| - i
  {
    if i == |Children(v)| then Rewritten(Rebuild(v, done), st)
    else
      var c := if v.Arr? then v.items[i] else v.entries[i].1;
      assert c == Children(v)[i];
      match SpecialKey(st, c, rid, host, fuel)
      case Some(RewriteFailed(e, st1)) => RewriteFailed(e, st1)
      case Some(Rewritten(x, st1)) => WalkFrom(st1, v, i + 1, done + [x], rid, host, fuel)
      case None =>
        if IsContainer(c) then
          match Walk(st, c, rid, host, fuel)
          case RewriteFailed(e, st1) => RewriteFailed(e, st1)
          case Rewritten(x, st1) => WalkFrom(st1, v, i + 1, done + [x], rid, host, fuel)
        else WalkFrom(st, v, i + 1, done + [c], rid, host, fuel)
  }

  function Walk(st: Store, v: Value, rid: RuntimeId, host: Host, fuel: nat): (r: Rewrite)
    requires IsContainer(v)
    ensures SameShape(st, r.store)
    ensures r.Rewritten? ==> SameLayout(v, r.value)
    decreases v, |Children(v)| + 1
  {
    WalkFrom(st, v, 0, [], rid, host, fuel)
  }

  /** `preprocess(actionDetails, runtime)`: the action itself is walked, never
      replaced. `Object.entries` of a string or function visits nothing that
      can change; of `undefined` or `null` it raises a TypeError. */
  function Preprocess(st: Store, action: Value, rid: RuntimeId, host: Host, fuel: nat): (r: Rewrite)
    ensures SameShape(st, r.store)
    ensures r.Rewritten? ==> SameLayout(action, r.value)
  {
    if IsContainer(action) then Walk(st, action, rid, host, fuel)
    else if action == Undefined || action == Null then RewriteFailed(TypeError("Cannot convert undefined or null to object"), st)
    else Rewritten(action, st)
  }

  /** `replaceSpecialKey(action, 'condition')`: the condition of an action
      (a plain object) replaced in place when it is a directive. */
  function RewriteCondition(st: Store, action: Value, rid: RuntimeId, host: Host, fuel: nat): (r: Rewrite)
    requires action.Obj?
    ensures SameShape(st, r.store)
    ensures r.Rewritten? ==> r.value.Obj?
    ensures !IsDirective(Lookup(action.entries, "condition")) ==> r == Rewritten(action, st)
  {
    match SpecialKey(st, Lookup(action.entries, "condition"), rid, host, fuel)
    case None => Rewritten(action, st)
    case Some(RewriteFailed(e, st1)) => RewriteFailed(e, st1)
    case Some(Rewritten(x, st1)) => Rewritten(Obj(Put(action.entries, "condition", x)), st1)
  }

  // ---------------------------------------------------------------------------
  // Properties

  /** No directive anywhere below `v`. */
  predicate NoDirectives(v: Value)
    decreases v
  {
    match v
    case Arr(items) => forall i :: 0 <= i < |items| ==> !IsDirective(items[i]) && NoDirectives(items[i])
    case Obj(es) => forall i :: 0 <= i < |es| ==> !IsDirective(es[i].1) && NoDirectives(es[i].1)
    case _ => true
  }

  /** An entry the walk neither replaces nor descends into. */
  predicate Plain(c: Value) {
    !IsContainer(c) && !IsDirective(c)
  }

  /** The walk keeps the entries already done and leaves every later entry
      that is neither a container nor a directive as it was. */
  lemma {:induction false} WalkFromKeeps(st: Store, v: Value, i: nat, done: seq<Value>, rid: RuntimeId, host: Host, fuel: nat)
    requires IsContainer(v) && i <= |Children(v)| && |done| == i
    ensures var r := WalkFrom(st, v, i, done, rid, host, fuel);
      r.Rewritten? ==> forall j :: 0 <= j < i ==> Children(r.value)[j] == done[j]
    ensures var r := WalkFrom(st, v, i, done, rid, host, fuel);
      r.Rewritten? ==> forall j :: i <= j < |Children(v)| && Plain(Children(v)[j]) ==> Children(r.value)[j] == Children(v)[j]
    decreases |Children(v)| - i
  {
    var r := WalkFrom(st, v, i, done, rid, host, fuel);
    if i < |Children(v)| && r.Rewritten? {
      var c := Children(v)[i];
      assert c == if v.Arr? then v.items[i] else v.entries[i].1;
      var sk := SpecialKey(st, c, rid, host, fuel);
      var st1, x;
      if sk.Some? {
        st1, x := sk.value.store, sk.value.value;
      } else if IsContainer(c) {
        var w := Walk(st, c, rid, host, fuel);
        st1, x := w.store, w.value;
      } else {
        st1, x := st, c;
      }
      assert r == WalkFrom(st1, v, i + 1, done + [x], rid, host, fuel);
      WalkFromKeeps(st1, v, i + 1, done + [x], rid, host, fuel);
      LayoutLength(v, r.value);
      KeepsStep(Children(v), i, done, x, Children(r.value));
    }
  }

  lemma LayoutLength(v: Value, w: Value)
    requires IsContainer(v) && SameLayout(v, w)
    ensures |Children(w)| == |Children(v)|
  {
  }

  /** Keeping `done + [x]` and the later plain entries, where `x` is the
      entry itself when it is plain, keeps `done` and the plain entries
      from `i` on. */
  lemma KeepsStep(cs: seq<Value>, i: nat, done: seq<Value>, x: Value, out: seq<Value>)
    requires i < |cs| && |done| == i && |out| == |cs|
    requires Plain(cs[i]) ==> x == cs[i]
    requires forall j :: 0 <= j < i + 1 ==> out[j] == (done + [x])[j]
    requires forall j :: i + 1 <= j < |cs| && Plain(cs[j]) ==> out[j] == cs[j]
    ensures forall j :: 0 <= j < i ==> out[j] == done[j]
    ensures forall j :: i <= j < |cs| && Plain(cs[j]) ==> out[j] == cs[j]
  {
    assert (done + [x])[i] == x;
    forall j | 0 <= j < i ensures out[j] == done[j] {
      assert (done + [x])[j] == done[j];
    }
  }

  lemma RebuildSame(v: Value)
    requires IsContainer(v)
    ensures Rebuild(v, Children(v)) == v
  {
    if v.Obj? {
      assert Rebuild(v, Children(v)).entries == v.entries;
    }
  }

  lemma {:induction false} WalkFromUnchanged(st: Store, v: Value, i: nat, rid: RuntimeId, host: Host, fuel: nat)
    requires IsContainer(v) && NoDirectives(v) && i <= |Children(v)|
    ensures WalkFrom(st, v, i, Children(v)[..i], rid, host, fuel) == Rewritten(v, st)
    decreases v, |Children(v)| - i
  {
    if i == |Children(v)| {
      assert Children(v)[..i] == Children(v);
      RebuildSame(v);
    } else {
      var c := Children(v)[i];
      assert !IsDirective(c) && NoDirectives(c) by {
        if v.Arr? { assert c == v.items[i]; } else { assert c == v.entries[i].1; }
      }
      assert Children(v)[..i] + [c] == Children(v)[..i + 1];
      if IsContainer(c) {
        assert c == (if v.Arr? then v.items[i] else v.entries[i].1);
        WalkUnchanged(st, c, rid, host, fuel);
      }
      WalkFromUnchanged(st, v, i + 1, rid, host, fuel);
    }
  }

  /** A tree with no directive object is left unchanged, and so is the store. */
  lemma {:induction false} WalkUnchanged(st: Store, v: Value, rid: RuntimeId, host: Host, fuel: nat)
    requires IsContainer(v) && NoDirectives(v)
    ensures Walk(st, v, rid, host, fuel) == Rewritten(v, st)
    decreases v, |Children(v)| + 1
  {
    assert Children(v)[..0] == [];
    WalkFromUnchanged(st, v, 0, rid, host, fuel);
  }

  lemma PreprocessUnchanged(st: Store, action: Value, rid: RuntimeId, host: Host, fuel: nat)
    requires NoDirectives(action) && action != Undefined && action != Null
    ensures Preprocess(st, action, rid, host, fuel) == Rewritten(action, st)
  {
    if IsContainer(action) {
      WalkUnchanged(st, action, rid, host, fuel);
    }
  }

  /** The action object itself is never a replacement candidate: an action
      that is a single `$expr` key keeps it, string and all. */
  lemma RootNotReplaced(st: Store, s: string, rid: RuntimeId, host: Host, fuel: nat)
    ensures Preprocess(st, Obj([("$expr", Str(s))]), rid, host, fuel) == Rewritten(Obj([("$expr", Str(s))]), st)
  {
    PreprocessUnchanged(st, Obj([("$expr", Str(s))]), rid, host, fuel);
  }

  /** An `expr$` entry becomes a callable over the runtime, and its source is
      not descended into, whatever directives it holds. */
  lemma DeferredNotDescended(st: Store, key: string, source: Value, rid: RuntimeId, host: Host, fuel: nat)
    ensures Preprocess(st, Obj([(key, Obj([("expr$", source)]))]), rid, host, fuel)
         == Rewritten(Obj([(key, Fn(Deferred(rid, source)))]), st)
  {
    var v := Obj([(key, Obj([("expr$", source)]))]);
    assert IsDirective(Obj([("expr$", source)]));
    assert SpecialKey(st, v.entries[0].1, rid, host, fuel) == Some(Rewritten(Fn(Deferred(rid, source)), st));
    assert [] + [Fn(Deferred(rid, source))] == [Fn(Deferred(rid, source))];
    assert WalkFrom(st, v, 1, [Fn(Deferred(rid, source))], rid, host, fuel)
        == Rewritten(Rebuild(v, [Fn(Deferred(rid, source))]), st);
    assert Walk(st, v, rid, host, fuel) == WalkFrom(st, v, 1, [Fn(Deferred(rid, source))], rid, host, fuel);
    assert Rebuild(v, [Fn(Deferred(rid, source))]).entries == [(key, Fn(Deferred(rid, source)))];
  }

  /** An `$expr` entry is replaced by the value of its expression, computed
      against the runtime, in the store the evaluation leaves. */
  lemma ExprReplaced(st: Store, key: string, e: AstNode, rid: RuntimeId, host: Host, fuel: nat)
    requires TopLevel(e)
    requires Compute(st, e, rid, host, fuel).outcome.Ok?
    ensures var c := Compute(st, e, rid, host, fuel);
      Preprocess(st, Obj([(key, Obj([("$expr", Str(Source(e)))]))]), rid, host, fuel)
        == Rewritten(Obj([(key, c.outcome.value)]), c.store)
  {
    var c := Compute(st, e, rid, host, fuel);
    ResolveSource(st, e, rid, host, fuel);
    var v := Obj([(key, Obj([("$expr", Str(Source(e)))]))]);
    assert IsDirective(Obj([("$expr", Str(Source(e)))]));
    assert SpecialKey(st, Obj([("$expr", Str(Source(e)))]), rid, host, fuel) == Some(Rewritten(c.outcome.value, c.store));
    assert v.entries[0].1 == Obj([("$expr", Str(Source(e)))]);
    assert [] + [c.outcome.value] == [c.outcome.value];
    assert WalkFrom(c.store, v, 1, [c.outcome.value], rid, host, fuel)
        == Rewritten(Rebuild(v, [c.outcome.value]), c.store);
    assert Walk(st, v, rid, host, fuel) == WalkFrom(c.store, v, 1, [c.outcome.value], rid, host, fuel);
    assert Rebuild(v, [c.outcome.value]).entries == [(key, c.outcome.value)];
  }

  /** A failing `$expr` aborts the walk with its error. */
  lemma ExprFailureAborts(st: Store, key: string, s: string, rid: RuntimeId, host: Host, fuel: nat)
    requires ResolveExpression(st, Str(s), rid, host, fuel).outcome.Throw?
    ensures var c := ResolveExpression(st, Str(s), rid, host, fuel);
      Preprocess(st, Obj([(key, Obj([("$expr", Str(s))]))]), rid, host, fuel)
        == RewriteFailed(c.outcome.error, c.store)
  {
    var c := ResolveExpression(st, Str(s), rid, host, fuel);
    var v := Obj([(key, Obj([("$expr", Str(s))]))]);
    assert IsDirective(Obj([("$expr", Str(s))]));
    assert v.entries[0].1 == Obj([("$expr", Str(s))]);
    assert SpecialKey(st, v.entries[0].1, rid, host, fuel) == Some(RewriteFailed(c.outcome.error, c.store));
    assert Walk(st, v, rid, host, fuel) == RewriteFailed(c.outcome.error, c.store);
  }

  /** An object with two keys, or with an unknown single key, is not a
      directive: it is walked like any other object. */
  lemma NotADirective(st: Store, a: string, x: Value, b: string, y: Value, rid: RuntimeId, host: Host, fuel: nat)
    ensures SpecialKey(st, Obj([(a, x), (b, y)]), rid, host, fuel) == None
    ensures a !in DirectiveNames ==> SpecialKey(st, Obj([(a, x)]), rid, host, fuel) == None
  {
  }
}
