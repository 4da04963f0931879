/** The expression evaluator (`computeAst`, `resolveExpression`) and the
    callables it applies.

    Evaluation threads the store of runtimes: a `setVar(name)` closure or an
    `expr$` callable writes variables of the runtime it was built in. Host
    built-ins and `eval$` code are the parameter `host`, which returns an
    outcome and changes no runtime. Calling an `expr$` callable evaluates its
    expression again; each such re-entry costs one unit of `fuel`, and running
    out raises `OutOfFuel`. */
module Evaluator {

  import opened Values
  import opened Tokenizer
  import opened Parser
  import opened ParserLaws
  import opened Runtime

  /** Host code: a built-in name or directive tag, with its arguments. */
  type Host = (string, seq<Value>) -> Outcome

  datatype Eval = Eval(outcome: Outcome, store: Store)

  datatype EvalArgs = ArgsDone(values: seq<Value>, store: Store) | ArgsThrew(error: Error, store: Store)

  /** The name `setArguments` gives the `i`-th parameter. */
  function ArgName(i: nat): string {
    "$" + NatToString(i)
  }

  /** The `for ... in params` loop of `setArguments`, from index `i` on. */
  function SetArgumentsFrom(rt: PipelineRuntime, params: seq<Value>, i: nat): PipelineRuntime
    decreases |params| - i
  {
    if i >= |params| then rt
    else SetArgumentsFrom(SetVariable(rt, ArgName(i), params[i]), params, i + 1)
  }

  /** `setArguments(runtime, params)`: `$0`, `$1`, ... then `$arguments`. */
  function SetArguments(rt: PipelineRuntime, params: seq<Value>): PipelineRuntime {
    SetVariable(SetArgumentsFrom(rt, params, 0), "$arguments", Arr(params))
  }

  function SetArgumentsIn(st: Store, id: RuntimeId, params: seq<Value>): Store {
    if id < |st| then st[id := SetArguments(st[id], params)] else st
  }

  lemma {:induction false} ArgNameInjective(i: nat, j: nat)
    requires ArgName(i) == ArgName(j)
    ensures i == j
  {
    assert ArgName(i)[1..] == NatToString(i);
    assert ArgName(j)[1..] == NatToString(j);
    NatToStringInjective(i, j);
  }

  lemma ArgNameNotArguments(i: nat)
    ensures ArgName(i) != "$arguments"
  {
    assert ArgName(i)[1] != "$arguments"[1];
  }

  lemma {:induction false} SetArgumentsFromSpec(rt: PipelineRuntime, params: seq<Value>, i: nat)
    ensures forall j :: i <= j < |params| ==> Variable(SetArgumentsFrom(rt, params, i), ArgName(j)) == params[j]
    ensures forall k :: (forall j :: i <= j < |params| ==> k != ArgName(j)) ==>
      Variable(SetArgumentsFrom(rt, params, i), k) == Variable(rt, k)
    ensures SetArgumentsFrom(rt, params, i).procedures == rt.procedures
    ensures SetArgumentsFrom(rt, params, i).procedureResult == rt.procedureResult
    decreases |params| - i
  {
    if i < |params| {
      var rt1 := SetVariable(rt, ArgName(i), params[i]);
      SetArgumentsFromSpec(rt1, params, i + 1);
      forall j | i < j < |params|
        ensures ArgName(j) != ArgName(i)
      {
        if ArgName(j) == ArgName(i) {
          ArgNameInjective(i, j);
        }
      }
    }
  }

  /** `setArguments` writes `$0 .. $(n-1)` and `$arguments` and nothing else:
      a `$k` left by a longer earlier call keeps its value. */
  lemma SetArgumentsSpec(rt: PipelineRuntime, params: seq<Value>)
    ensures forall i :: 0 <= i < |params| ==> Variable(SetArguments(rt, params), ArgName(i)) == params[i]
    ensures Variable(SetArguments(rt, params), "$arguments") == Arr(params)
    ensures forall k :: k != "$arguments" && (forall i :: 0 <= i < |params| ==> k != ArgName(i)) ==>
      Variable(SetArguments(rt, params), k) == Variable(rt, k)
    ensures SetArguments(rt, params).procedures == rt.procedures
    ensures SetArguments(rt, params).procedureResult == rt.procedureResult
  {
    SetArgumentsFromSpec(rt, params, 0);
    forall i | 0 <= i < |params| {
      ArgNameNotArguments(i);
    }
  }

  lemma StaleArgumentKept(rt: PipelineRuntime, params: seq<Value>, k: nat)
    requires k >= |params|
    ensures Variable(SetArguments(rt, params), ArgName(k)) == Variable(rt, ArgName(k))
  {
    SetArgumentsSpec(rt, params);
    ArgNameNotArguments(k);
    forall i | 0 <= i < |params|
      ensures ArgName(k) != ArgName(i)
    {
      if ArgName(k) == ArgName(i) {
        ArgNameInjective(k, i);
      }
    }
  }

  lemma SetArgumentsInShape(st: Store, id: RuntimeId, params: seq<Value>)
    ensures SameShape(st, SetArgumentsIn(st, id, params))
  {
    if id < |st| {
      SetArgumentsSpec(st[id], params);
    }
  }

  /** The error `resolveExpression` raises for a tokenizer failure. Reading
      past the end of the character stream is the TypeError of a property
      read on `undefined`. */
  function LexFailure(e: LexError): Error {
    match e
    case EofTooSoon => ReachEofTooSoon
    case ReadPastEnd => TypeError("Cannot read properties of undefined")
    case Hangs(i) => TokenizerHangs(i)
  }

  /** The built-ins of the function table whose code is part of the engine;
      every other name is host code. None of them writes a runtime. */
  function ApplyBuiltin(name: string, owner: RuntimeId, args: seq<Value>, host: Host): Outcome {
    var a := Arg(args, 0);
    if name == "identity" then Ok(a)
    else if name == "not" then Ok(NotValue(a))
    else if name == "castBoolean" then Ok(Bool(Truthy(a)))
    else if name == "castString" then Ok(Str(JsString(a)))
    else if name == "isDefined" then Ok(Bool(a != Undefined))
    else if name == "isNumber" then Ok(Bool(a.Num?))
    else if name == "setVar" then Ok(Fn(VarSetter(owner, JsString(a))))
    else if name == "createValueMapper" then
      match MapperPairs(a)
      case Err(e) => Throw(e)
      case Good(pairs) => Ok(Fn(ValueMapper(pairs, Arg(args, 1))))
    else if name == "return" then ExitWith(a)
    else host(name, args)
  }

  /** `f(...args)`. A value that is not callable raises a TypeError. */
  function Apply(st: Store, f: Value, args: seq<Value>, host: Host, fuel: nat): (r: Eval)
    ensures SameShape(st, r.store)
    decreases fuel, 0, 0, 0
  {
    if !f.Fn? then Eval(Throw(TypeError("is not a function")), st)
    else match f.callable
      case Builtin(name, owner) => Eval(ApplyBuiltin(name, owner, args, host), st)
      case VarSetter(owner, key) => Eval(Ok(Arg(args, 0)), SetVar(st, owner, key, Arg(args, 0)))
      case ValueMapper(pairs, fallback) => Eval(Ok(MapperLookup(pairs, Arg(args, 0), fallback)), st)
      case Deferred(owner, source) =>
        SetArgumentsInShape(st, owner, args);
        if fuel == 0 then Eval(Throw(OutOfFuel), st)
        else ResolveExpression(SetArgumentsIn(st, owner, args), source, owner, host, fuel - 1)
      case DeferredScript(owner, directive, source) =>
        SetArgumentsInShape(st, owner, args);
        Eval(host(directive, [source] + args), SetArgumentsIn(st, owner, args))
      case HostClosure(tag) => Eval(host(tag, args), st)
  }

  /** `dispatchNode` against the runtime `rid`. */
  function Compute(st: Store, node: AstNode, rid: RuntimeId, host: Host, fuel: nat): (r: Eval)
    ensures SameShape(st, r.store)
    decreases fuel, 1, Size(node), 0
  {
    match node
    case PipeOperator(left, right) =>
      // `computePipe`: the input, then the function, then the call
      var input := Compute(st, left, rid, host, fuel);
      if input.outcome.Throw? then input
      else
        var unary := Compute(input.store, right, rid, host, fuel);
        if unary.outcome.Throw? then unary
        else Apply(unary.store, unary.outcome.value, [input.outcome.value], host, fuel)
    case FunctionNode(name, childs) =>
      // `computeFunction`: the symbol first, then the arguments in order
      var apply := GetSymbol(RuntimeOf(st, rid), rid, name);
      if apply == Undefined then Eval(Throw(FunctionUnavailable(name)), st)
      else
        (match ComputeArgs(st, childs, rid, host, fuel, [])
         case ArgsThrew(e, st') => Eval(Throw(e), st')
         case ArgsDone(params, st') => Apply(st', apply, params, host, fuel))
    case ValueNode(SymbolRef(name)) => Eval(Ok(GetSymbol(RuntimeOf(st, rid), rid, name)), st)
    case ValueNode(NumberLit(n)) => Eval(Ok(Num(n)), st)
    case ValueNode(StringLit(s)) => Eval(Ok(Str(s)), st)
  }

  /** The argument loop of `computeFunction`: each argument is evaluated in
      the store the previous one left, and pushed onto `done`. */
  function ComputeArgs(st: Store, childs: seq<AstNode>, rid: RuntimeId, host: Host, fuel: nat,
                       done: seq<Value>): (r: EvalArgs)
    ensures SameShape(st, r.store)
    ensures r.ArgsDone? ==> |r.values| == |done| + |childs| && r.values[..|done|] == done
    decreases fuel, 1, SizeArgs(childs), 1
  {
    if childs == [] then ArgsDone(done, st)
    else
      SizePositive(childs[0]);
      var first := Compute(st, childs[0], rid, host, fuel);
      match first.outcome
      case Throw(e) => ArgsThrew(e, first.store)
      case Ok(v) =>
        var rest := ComputeArgs(first.store, childs[1..], rid, host, fuel, done + [v]);
        assert rest.ArgsDone? ==> rest.values[..|done|] == (rest.values[..|done| + 1])[..|done|];
        rest
  }

  /** The elements of an array, when each is a one-character string: the
      text they spell. */
  function CharsOf(items: seq<Value>): (r: Option<string>)
    ensures r.Some? <==> forall i :: 0 <= i < |items| ==> items[i].Str? && |items[i].s| == 1
    ensures r.Some? ==> |r.value| == |items| && forall i :: 0 <= i < |items| ==> r.value[i] == items[i].s[0]
    decreases |items|
  {
    if items == [] then Some("")
    else if !(items[0].Str? && |items[0].s| == 1) then None
    else
      match CharsOf(items[1..])
      case None => None
      case Some(rest) => Some(items[0].s + rest)
  }

  /** What the character stream's `for…of` walks: the characters of a
      string, or the elements of an array of one-character strings, which
      act as the text they spell. */
  function Terminals(source: Value): (r: Option<string>)
    ensures source.Str? ==> r == Some(source.s)
    ensures source.Arr? ==> r == CharsOf(source.items)
    ensures !source.Str? && !source.Arr? ==> r.None?
  {
    if source.Str? then Some(source.s)
    else if source.Arr? then CharsOf(source.items)
    else None
  }

  /** `resolveExpression`: tokenize, parse, then evaluate. A source that is
      neither a string nor an array is not iterable by the character stream;
      an array with an element other than a one-character string is given
      the same TypeError here. */
  function ResolveExpression(st: Store, source: Value, rid: RuntimeId, host: Host, fuel: nat): (r: Eval)
    ensures SameShape(st, r.store)
    decreases fuel, 2, 0, 0
  {
    match Terminals(source)
    case None => Eval(Throw(TypeError("is not iterable")), st)
    case Some(text) =>
      match Lex(text)
      case LexFailed(e) => Eval(Throw(LexFailure(e)), st)
      case Tokens(ts) =>
        match Parse(ts)
        case Err(e) => Eval(Throw(e), st)
        case Good(ast) => Compute(st, ast, rid, host, fuel)
  }

  // ---------------------------------------------------------------------------
  // Properties

  /** The source text of an expression. */
  function Source(e: AstNode): string {
    Render(Unparse(e))
  }

  /** Resolving the text of an expression evaluates that expression: the
      front end neither changes nor evaluates anything on the way. */
  lemma ResolveSource(st: Store, e: AstNode, rid: RuntimeId, host: Host, fuel: nat)
    requires TopLevel(e)
    ensures ResolveExpression(st, Str(Source(e)), rid, host, fuel) == Compute(st, e, rid, host, fuel)
  {
    ParseLexRender(e);
  }

  /** Lexer and parser errors are raised before anything is evaluated. */
  lemma FrontEndErrorsFirst(st: Store, s: string, rid: RuntimeId, host: Host, fuel: nat)
    requires Lex(s).LexFailed? || Parse(Lex(s).tokens).Err?
    ensures ResolveExpression(st, Str(s), rid, host, fuel).outcome.Throw?
    ensures ResolveExpression(st, Str(s), rid, host, fuel).store == st
  {
  }

  /** An unknown function is reported before any argument is evaluated. */
  lemma UnavailableFunction(st: Store, name: string, childs: seq<AstNode>, rid: RuntimeId, host: Host, fuel: nat)
    requires name !in FunctionNames && Variable(RuntimeOf(st, rid), name) == Undefined
    ensures Compute(st, FunctionNode(name, childs), rid, host, fuel) == Eval(Throw(FunctionUnavailable(name)), st)
  {
  }

  /** A name bound to a value that is not callable passes the `undefined`
      check and fails only when applied, after its arguments. */
  lemma NonCallableFailsAtApplication(st: Store, name: string, childs: seq<AstNode>, rid: RuntimeId,
                                      host: Host, fuel: nat)
    requires name !in FunctionNames
    requires Variable(RuntimeOf(st, rid), name) != Undefined && !Variable(RuntimeOf(st, rid), name).Fn?
    requires ComputeArgs(st, childs, rid, host, fuel, []).ArgsDone?
    ensures Compute(st, FunctionNode(name, childs), rid, host, fuel)
         == Eval(Throw(TypeError("is not a function")), ComputeArgs(st, childs, rid, host, fuel, []).store)
  {
  }

  /** A symbol leaf reads `getSymbol`; an absent name is `undefined`, not an
      error, and nothing changes. */
  lemma SymbolLeafReads(st: Store, name: string, rid: RuntimeId, host: Host, fuel: nat)
    requires name !in FunctionNames && Variable(RuntimeOf(st, rid), name) == Undefined
    ensures Compute(st, ValueNode(SymbolRef(name)), rid, host, fuel) == Eval(Ok(Undefined), st)
  {
  }

  /** Adding one argument at the end evaluates the earlier ones first, then
      the new one in the store they left. */
  lemma {:induction false} ComputeArgsSnoc(st: Store, childs: seq<AstNode>, c: AstNode, rid: RuntimeId,
                                           host: Host, fuel: nat, done: seq<Value>)
    ensures ComputeArgs(st, childs + [c], rid, host, fuel, done) ==
      match ComputeArgs(st, childs, rid, host, fuel, done)
      case ArgsThrew(e, st1) => ArgsThrew(e, st1)
      case ArgsDone(vs, st1) =>
        match Compute(st1, c, rid, host, fuel).outcome
        case Throw(e) => ArgsThrew(e, Compute(st1, c, rid, host, fuel).store)
        case Ok(v) => ArgsDone(vs + [v], Compute(st1, c, rid, host, fuel).store)
    decreases |childs|
  {
    if childs == [] {
      assert [] + [c] == [c];
    } else {
      assert (childs + [c])[0] == childs[0];
      assert (childs + [c])[1..] == childs[1..] + [c];
      var first := Compute(st, childs[0], rid, host, fuel);
      if first.outcome.Ok? {
        ComputeArgsSnoc(first.store, childs[1..], c, rid, host, fuel, done + [first.outcome.value]);
      }
    }
  }

  /** `"x" | setVar("n")` returns the literal and stores it as `n` in the
      runtime it is evaluated in, changing no other variable. */
  lemma SetVarPipe(st: Store, rid: RuntimeId, x: string, n: string, host: Host, fuel: nat)
    requires rid < |st|
    requires IsLitteralText(x) && IsLitteralText(n)
    ensures var r := ResolveExpression(st, Str(Source(SetVarExpr(x, n))), rid, host, fuel);
      r.outcome == Ok(Str(x)) && r.store == SetVar(st, rid, n, Str(x))
  {
    var e := SetVarExpr(x, n);
    assert Argument(ValueNode(StringLit(n)));
    assert Call(e.right);
    assert TopLevel(e);
    ResolveSource(st, e, rid, host, fuel);
    var arg := ValueNode(StringLit(n));
    assert Compute(st, arg, rid, host, fuel) == Eval(Ok(Str(n)), st);
    assert [arg][1..] == [];
    assert ComputeArgs(st, [], rid, host, fuel, [] + [Str(n)]) == ArgsDone([Str(n)], st);
    assert ComputeArgs(st, [arg], rid, host, fuel, []) == ArgsDone([Str(n)], st);
    assert "setVar" in FunctionNames;
    assert GetSymbol(RuntimeOf(st, rid), rid, "setVar") == Fn(Builtin("setVar", rid));
    assert ApplyBuiltin("setVar", rid, [Str(n)], host) == Ok(Fn(VarSetter(rid, n)));
    assert Apply(st, Fn(Builtin("setVar", rid)), [Str(n)], host, fuel) == Eval(Ok(Fn(VarSetter(rid, n))), st);
    assert e.right == FunctionNode("setVar", [arg]);
    var setter := Compute(st, e.right, rid, host, fuel);
    assert setter == Eval(Ok(Fn(VarSetter(rid, n))), st);
    assert Compute(st, e.left, rid, host, fuel) == Eval(Ok(Str(x)), st);
    assert Compute(st, e, rid, host, fuel) == Apply(st, Fn(VarSetter(rid, n)), [Str(x)], host, fuel);
  }

  function SetVarExpr(x: string, n: string): AstNode {
    PipeOperator(ValueNode(StringLit(x)), FunctionNode("setVar", [ValueNode(StringLit(n))]))
  }

  /** Applying an `expr$` callable resolves its source, after the
      parameters are bound, in the runtime it was built in. */
  lemma DeferredResolves(st: Store, owner: RuntimeId, source: Value, args: seq<Value>, host: Host, fuel: nat)
    requires fuel > 0
    ensures Apply(st, Fn(Deferred(owner, source)), args, host, fuel)
         == ResolveExpression(SetArgumentsIn(st, owner, args), source, owner, host, fuel - 1)
  {
  }

  /** Applying an `expr$` callable evaluates its expression, after the
      parameters are bound, in the runtime it was built in. */
  lemma DeferredApply(st: Store, owner: RuntimeId, e: AstNode, args: seq<Value>, host: Host, fuel: nat)
    requires fuel > 0 && TopLevel(e)
    ensures Apply(st, Fn(Deferred(owner, Str(Source(e)))), args, host, fuel)
         == Compute(SetArgumentsIn(st, owner, args), e, owner, host, fuel - 1)
  {
    var bound := SetArgumentsIn(st, owner, args);
    DeferredResolves(st, owner, Str(Source(e)), args, host, fuel);
    ParseLexRender(e);
    assert ResolveExpression(bound, Str(Source(e)), owner, host, fuel - 1) == Compute(bound, e, owner, host, fuel - 1);
  }

  /** Binding the parameters of a call in the runtime `owner`. */
  lemma ArgumentsBound(st: Store, owner: RuntimeId, args: seq<Value>)
    requires owner < |st|
    ensures forall i :: 0 <= i < |args| ==> Variable(SetArgumentsIn(st, owner, args)[owner], ArgName(i)) == args[i]
    ensures Variable(SetArgumentsIn(st, owner, args)[owner], "$arguments") == Arr(args)
  {
    assert SetArgumentsIn(st, owner, args)[owner] == SetArguments(st[owner], args);
    SetArgumentsSpec(st[owner], args);
  }

  /** Calling an `expr$` callable binds its parameters in the runtime it was
      built in, then evaluates its expression there. */
  lemma DeferredCall(st: Store, owner: RuntimeId, e: AstNode, args: seq<Value>, host: Host, fuel: nat)
    requires owner < |st| && fuel > 0 && TopLevel(e)
    ensures Apply(st, Fn(Deferred(owner, Str(Source(e)))), args, host, fuel)
         == Compute(SetArgumentsIn(st, owner, args), e, owner, host, fuel - 1)
    ensures forall i :: 0 <= i < |args| ==> Variable(SetArgumentsIn(st, owner, args)[owner], ArgName(i)) == args[i]
    ensures Variable(SetArgumentsIn(st, owner, args)[owner], "$arguments") == Arr(args)
  {
    DeferredApply(st, owner, e, args, host, fuel);
    ArgumentsBound(st, owner, args);
  }

  /** An array of one-character strings is resolved as the text it spells:
      `["a", "b"]` reads the name `ab`. */
  lemma ArraySourceSpells(st: Store, items: seq<Value>, rid: RuntimeId, host: Host, fuel: nat)
    requires forall i :: 0 <= i < |items| ==> items[i].Str? && |items[i].s| == 1
    ensures CharsOf(items).Some?
    ensures ResolveExpression(st, Arr(items), rid, host, fuel) == ResolveExpression(st, Str(CharsOf(items).value), rid, host, fuel)
    ensures CharsOf([Str("a"), Str("b")]) == Some("ab")
  {
    var ab := [Str("a"), Str("b")];
    assert ab[0].s == "a" && ab[1].s == "b";
    assert CharsOf(ab).value == "ab";
  }

  /** The `return` built-in never returns normally. */
  lemma ReturnRaises(st: Store, owner: RuntimeId, args: seq<Value>, host: Host, fuel: nat)
    ensures Apply(st, Fn(Builtin("return", owner)), args, host, fuel)
         == Eval(Throw(ExitProcedure(Arg(args, 0))), st)
  {
  }

  /** The `not` built-in returns the negated truthiness of its argument and
      leaves the store as it was. */
  lemma NotCall(st: Store, owner: RuntimeId, v: Value, host: Host, fuel: nat)
    ensures Apply(st, Fn(Builtin("not", owner)), [v], host, fuel) == Eval(Ok(Bool(!Truthy(v))), st)
  {
  }

  /** `not` twice is `castBoolean`; on a boolean it gives the boolean back. */
  lemma NotTwice(st: Store, owner: RuntimeId, v: Value, host: Host, fuel: nat)
    ensures var once := Apply(st, Fn(Builtin("not", owner)), [v], host, fuel);
      once.outcome.Ok? &&
      Apply(once.store, Fn(Builtin("not", owner)), [once.outcome.value], host, fuel)
        == Apply(st, Fn(Builtin("castBoolean", owner)), [v], host, fuel)
    ensures v.Bool? ==> NotValue(NotValue(v)) == v
  {
    NotCall(st, owner, v, host, fuel);
    NotCall(st, owner, Bool(!Truthy(v)), host, fuel);
  }

  /** `setVar(name)(value)` stores the value and returns it. */
  lemma SetVarCall(st: Store, owner: RuntimeId, key: string, v: Value, host: Host, fuel: nat)
    requires owner < |st|
    ensures var r := Apply(st, Fn(VarSetter(owner, key)), [v], host, fuel);
      r.outcome == Ok(v) && Variable(r.store[owner], key) == v &&
      forall k :: k != key ==> Variable(r.store[owner], k) == Variable(st[owner], k)
  {
  }
}
