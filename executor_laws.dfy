/** What the step interpreter and the control handlers promise, stated over
    the functions of `Executor`. */
module ExecutorLaws {

  import opened Values
  import opened Runtime
  import opened Evaluator
  import opened Preprocessor
  import opened Executor

  // ---------------------------------------------------------------------------
  // One step

  /** A `private-procedure` action is registered whatever else it says, a
      `skip: true` included, and nothing of it is evaluated or handled. */
  lemma PrivateProcedureRegistered(s: State, action: Value, rid: RuntimeId, env: Env, fuel: nat)
    requires rid < |s.store|
    requires Field(action, "kind") == Good(Str("private-procedure"))
    ensures var r := ExecuteStep(s, action, rid, env, fuel);
      r.status == Continue && r.state.waits == s.waits && |r.state.store| == |s.store| &&
      GetProcedure(r.state.store[rid], Prop(action, "name")) == Prop(action, "steps") &&
      r.state.store[rid].variables == s.store[rid].variables &&
      forall j :: 0 <= j < |s.store| && j != rid ==> r.state.store[j] == s.store[j]
  {
  }

  /** `skip: true` skips the action before its condition or any directive is
      looked at. */
  lemma SkipSkips(s: State, action: Value, rid: RuntimeId, env: Env, fuel: nat)
    requires Field(action, "kind").Good? && Field(action, "kind").value != Str("private-procedure")
    requires Prop(action, "skip") == Bool(true)
    ensures ExecuteStep(s, action, rid, env, fuel) == Step(Continue, s)
  {
  }

  /** A defined condition that is no directive and is falsy skips the
      action, and nothing changes. */
  lemma FalsyConditionSkips(s: State, entries: seq<(string, Value)>, rid: RuntimeId, env: Env, fuel: nat)
    requires Lookup(entries, "kind") != Str("private-procedure") && Lookup(entries, "skip") != Bool(true)
    requires Lookup(entries, "condition") != Undefined && !IsDirective(Lookup(entries, "condition"))
    requires !Truthy(Lookup(entries, "condition"))
    ensures ExecuteStep(s, Obj(entries), rid, env, fuel) == Step(Continue, s)
  {
  }

  /** An `expr$` condition is rewritten, with nothing evaluated, to a
      callable built in the action's runtime. */
  lemma DeferredConditionRewrite(st: Store, entries: seq<(string, Value)>, source: Value, rid: RuntimeId, host: Host, fuel: nat)
    requires Lookup(entries, "condition") == Obj([("expr$", source)])
    ensures RewriteCondition(st, Obj(entries), rid, host, fuel)
         == Rewritten(Obj(Put(entries, "condition", Fn(Deferred(rid, source)))), st)
  {
    var c := Lookup(entries, "condition");
    assert IsDirective(c) && c.entries[0].0 == "expr$";
    assert SpecialKey(st, c, rid, host, fuel) == Some(Rewritten(Fn(Deferred(rid, source)), st));
  }

  /** An `expr$` condition becomes a callable, which is truthy, so the action
      runs with that callable as its condition and nothing is evaluated for
      the condition itself. */
  lemma DeferredConditionRuns(s: State, entries: seq<(string, Value)>, source: Value, rid: RuntimeId, env: Env, fuel: nat)
    requires Lookup(entries, "kind") != Str("private-procedure") && Lookup(entries, "skip") != Bool(true)
    requires Lookup(entries, "condition") == Obj([("expr$", source)])
    ensures ExecuteStep(s, Obj(entries), rid, env, fuel)
         == Execute(s, Obj(Put(entries, "condition", Fn(Deferred(rid, source)))), rid, env, fuel)
  {
    var rewritten := Obj(Put(entries, "condition", Fn(Deferred(rid, source))));
    DeferredConditionRewrite(s.store, entries, source, rid, env.host, fuel);
    assert Truthy(Prop(rewritten, "condition"));
    assert Field(Obj(entries), "kind") == Good(Lookup(entries, "kind"));
    assert s.(store := s.store) == s;
  }

  /** An action whose kind has no handler is skipped before preprocessing:
      none of its directives is evaluated, and nothing changes. */
  lemma UnknownKindSkipped(s: State, action: Value, rid: RuntimeId, env: Env, fuel: nat)
    requires !Prop(action, "kind").Str? || Prop(action, "kind").s !in Handlers
    ensures Execute(s, action, rid, env, fuel) == Step(Continue, s)
  {
  }

  /** The same through the whole step, for an action without a condition. */
  lemma UnknownKindStepSkipped(s: State, entries: seq<(string, Value)>, rid: RuntimeId, env: Env, fuel: nat)
    requires Lookup(entries, "kind") != Str("private-procedure") && Lookup(entries, "condition") == Undefined
    requires !Lookup(entries, "kind").Str? || Lookup(entries, "kind").s !in Handlers
    ensures ExecuteStep(s, Obj(entries), rid, env, fuel) == Step(Continue, s)
  {
    UnknownKindSkipped(s, Obj(entries), rid, env, fuel);
  }

  // ---------------------------------------------------------------------------
  // Runs of steps

  /** The steps of `b` run the same after any prefix. */
  lemma {:induction false} StepsShift(s: State, a: seq<Value>, b: seq<Value>, j: nat, rid: RuntimeId, env: Env, fuel: nat)
    requires j <= |b|
    ensures Steps(s, a + b, |a| + j, rid, env, fuel) == Steps(s, b, j, rid, env, fuel)
    decreases |b| - j
  {
    if j < |b| {
      assert (a + b)[|a| + j] == b[j];
      var step := ExecuteStep(s, b[j], rid, env, fuel);
      if step.status.Continue? {
        StepsShift(step.state, a, b, j + 1, rid, env, fuel);
      }
    }
  }

  /** Actions run strictly in list order: running `a + b` is running `a`,
      then `b` from the state `a` left, unless `a` returned or failed, in
      which case no action of `b` runs. */
  lemma {:induction false} StepsAppend(s: State, a: seq<Value>, b: seq<Value>, i: nat, rid: RuntimeId, env: Env, fuel: nat)
    requires i <= |a|
    ensures var first := Steps(s, a, i, rid, env, fuel);
      Steps(s, a + b, i, rid, env, fuel)
      == if first.status.Continue? then Steps(first.state, b, 0, rid, env, fuel) else first
    decreases |a| - i
  {
    if i == |a| {
      StepsShift(s, a, b, 0, rid, env, fuel);
    } else {
      assert (a + b)[i] == a[i];
      var step := ExecuteStep(s, a[i], rid, env, fuel);
      if step.status.Continue? {
        StepsAppend(step.state, a, b, i + 1, rid, env, fuel);
      }
    }
  }

  /** Once a run of actions returns or fails, appending actions to it
      changes nothing: they never run. */
  lemma StopsAtFirstExit(s: State, a: seq<Value>, b: seq<Value>, rid: RuntimeId, env: Env, fuel: nat)
    requires !Steps(s, a, 0, rid, env, fuel).status.Continue?
    ensures Steps(s, a + b, 0, rid, env, fuel) == Steps(s, a, 0, rid, env, fuel)
  {
    StepsAppend(s, a, b, 0, rid, env, fuel);
  }

  /** A step that returns ends the procedure: its value becomes the
      runtime's `procedureResult`, no later step runs, and no error leaves
      the procedure. */
  lemma ReturnEndsProcedure(s: State, first: Value, rest: seq<Value>, rid: RuntimeId, env: Env, fuel: nat)
    requires rid < |s.store|
    requires ExecuteStep(s, first, rid, env, fuel).status.Return?
    ensures var step := ExecuteStep(s, first, rid, env, fuel);
      EvaluateSteps(s, Arr([first] + rest), rid, env, fuel)
      == Done(None, step.state.(store := step.state.store[rid := step.state.store[rid].(procedureResult := step.status.value)]))
  {
    StopsAtFirstExit(s, [first], rest, rid, env, fuel);
  }

  /** The error the `return` built-in raises is, for the step interpreter, a
      return of the built-in's first argument and not a failure. */
  lemma ReturnBuiltinReturns(st: Store, owner: RuntimeId, args: seq<Value>, host: Host, fuel: nat)
    ensures var o := Apply(st, Fn(Builtin("return", owner)), args, host, fuel).outcome;
      o.Throw? && Raise(o.error) == Return(Arg(args, 0))
  {
    ReturnRaises(st, owner, args, host, fuel);
  }

  /** A run that finishes normally resets `procedureResult` to `undefined`,
      whatever it held before; a run that fails resets it too and passes the
      error on unchanged. */
  lemma ResultResetUnlessReturned(s: State, actions: seq<Value>, rid: RuntimeId, env: Env, fuel: nat)
    requires rid < |s.store|
    requires !Steps(s, actions, 0, rid, env, fuel).status.Return?
    ensures var r := EvaluateSteps(s, Arr(actions), rid, env, fuel);
      var run := Steps(s, actions, 0, rid, env, fuel);
      rid < |r.state.store| && r.state.store[rid].procedureResult == Undefined &&
      r.error == (if run.status.Fail? then Some(run.status.error) else None)
  {
  }

  // ---------------------------------------------------------------------------
  // Resolving a procedure

  /** The parent's private procedure of that name wins over any file: its
      steps run against the child, and the loader is never consulted. */
  lemma PrivateProcedureFirst(s: State, path: Value, parent: RuntimeId, child: RuntimeId, env: Env, fuel: nat)
    requires parent < |s.store| && path in s.store[parent].procedures
    requires s.store[parent].procedures[path] != Undefined
    ensures RunProcedure(s, path, parent, Some(child), env, fuel + 1)
         == EvaluateSteps(s, s.store[parent].procedures[path], child, env, fuel)
  {
  }

  /** Without such a procedure the file of that name runs; a file that cannot
      be read or parsed raises a host error and changes nothing. */
  lemma FileWhenNoPrivateProcedure(s: State, path: Value, parent: RuntimeId, child: Option<RuntimeId>, env: Env, fuel: nat)
    requires parent < |s.store| ==> path !in s.store[parent].procedures
    ensures var r := RunProcedure(s, path, parent, child, env, fuel + 1);
      (env.loadFile(path).LoadFailed? ==> r == Done(Some(HostError(env.loadFile(path).what)), s)) &&
      (env.loadFile(path).Loaded? ==> r == EvaluateSteps(s, env.loadFile(path).actions, child.GetOr(parent), env, fuel))
  {
  }

  // ---------------------------------------------------------------------------
  // invoke-procedure-file

  /** The child starts with exactly the params as variables: the last entry
      for a name wins, and a name no entry mentions is unset. */
  lemma {:induction false} SeededFromParams(es: seq<(string, Value)>, k: string)
    ensures (forall j :: 0 <= j < |es| ==> es[j].0 != k) ==> Variable(Seeded(Obj(es)), k) == Undefined
    ensures forall i :: 0 <= i < |es| && es[i].0 == k && (forall j :: i < j < |es| ==> es[j].0 != k) ==>
      Variable(Seeded(Obj(es)), k) == es[i].1
  {
    SetVariablesSpec(NewRuntime(map[]), es, k);
  }

  /** Absent (or any falsy) params give a child with no variables. */
  lemma SeededWithoutParams(params: Value)
    requires !Truthy(params)
    ensures Seeded(params) == NewRuntime(map[])
  {
  }

  /** Invoking a private procedure of the caller: the variable named by
      `storeReturnedValueInVariable` receives the value the procedure
      returned, or `undefined` when it finished without returning. */
  lemma InvokeStoresReturnedValue(s: State, action: Value, rid: RuntimeId, env: Env, fuel: nat)
    requires rid < |s.store|
    requires Prop(action, "path") in s.store[rid].procedures && s.store[rid].procedures[Prop(action, "path")] != Undefined
    requires Prop(action, "storeReturnedValueInVariable") != Undefined
    requires !ExecuteSteps(s.(store := s.store + [Seeded(Prop(action, "params"))]),
                           s.store[rid].procedures[Prop(action, "path")], |s.store|, env, fuel).status.Fail?
    ensures var run := ExecuteSteps(s.(store := s.store + [Seeded(Prop(action, "params"))]),
                                    s.store[rid].procedures[Prop(action, "path")], |s.store|, env, fuel);
      var r := Invoke(s, action, rid, env, fuel + 1);
      r.error == None &&
      Variable(r.state.store[rid], JsString(Prop(action, "storeReturnedValueInVariable")))
      == (if run.status.Return? then run.status.value else Undefined)
  {
    var s1 := s.(store := s.store + [Seeded(Prop(action, "params"))]);
    var steps := s.store[rid].procedures[Prop(action, "path")];
    assert s1.store[rid] == s.store[rid];
    assert RunProcedure(s1, Prop(action, "path"), rid, Some(|s.store|), env, fuel + 1)
        == EvaluateSteps(s1, steps, |s.store|, env, fuel);
  }

  /** Whatever the invoked procedure does, no runtime that existed before the
      call loses or gains a private procedure or has its result changed. */
  lemma InvokeKeepsCallerProcedures(s: State, action: Value, rid: RuntimeId, env: Env, fuel: nat)
    requires rid < |s.store|
    ensures var r := Invoke(s, action, rid, env, fuel);
      r.state.store[rid].procedures == s.store[rid].procedures &&
      r.state.store[rid].procedureResult == s.store[rid].procedureResult
  {
  }

  // ---------------------------------------------------------------------------
  // poll-target

  /** With `maxRetryCount` absent, zero or negative no round runs, no
      target is touched, and the outcome stored (if asked for) is false. */
  lemma NoRoundWithoutBound(s: State, action: Value, rid: RuntimeId, env: Env, fuel: nat)
    requires MaxRounds(Prop(action, "maxRetryCount")) == 0
    ensures var name := Prop(action, "storeOutcomeInVariable");
      Poll(s, action, rid, env, fuel)
      == Done(None, if name == Undefined then s else s.(store := SetVar(s.store, rid, JsString(name), Bool(false))))
  {
  }

  /** At most `maxRetryCount` rounds start. */
  lemma RoundsBounded(s: State, action: Value, rid: RuntimeId, env: Env, fuel: nat)
    ensures Rounds(s, action, rid, 0, false, env, fuel).rounds <= MaxRounds(Prop(action, "maxRetryCount"))
  {
  }

  /** A round whose condition returns exactly `true` ends the loop at once,
      whatever the round number: the round is counted, the loop succeeds and
      no wait follows. */
  lemma SuccessStopsPolling(s: State, action: Value, rid: RuntimeId, count: nat, env: Env, fuel: nat)
    requires count < MaxRounds(Prop(action, "maxRetryCount"))
    requires PollRound(s, action, rid, count, env, fuel).error.None? && PollRound(s, action, rid, count, env, fuel).satisfied
    ensures Rounds(s, action, rid, count, false, env, fuel)
         == Polled(None, true, count + 1, PollRound(s, action, rid, count, env, fuel).state)
  {
  }

  /** A round that neither fails nor satisfies the condition is counted,
      then the loop waits once; when the exit signal has fired by then, no
      further round starts, at any round number and whatever the bound. */
  lemma ExitSignalStopsPolling(s: State, action: Value, rid: RuntimeId, count: nat, env: Env, fuel: nat)
    requires count < MaxRounds(Prop(action, "maxRetryCount"))
    requires PollRound(s, action, rid, count, env, fuel).error.None? && !PollRound(s, action, rid, count, env, fuel).satisfied
    requires env.exitFired(PollRound(s, action, rid, count, env, fuel).state.waits)
    ensures var round := PollRound(s, action, rid, count, env, fuel);
      Rounds(s, action, rid, count, false, env, fuel)
      == Polled(None, false, count + 1, round.state.(waits := round.state.waits + 1))
  {
    var round := PollRound(s, action, rid, count, env, fuel);
    ExitedStopsPolling(round.state.(waits := round.state.waits + 1), action, rid, count + 1, env, fuel);
  }

  /** Once the exit flag is read as raised, the loop starts no round. */
  lemma ExitedStopsPolling(s: State, action: Value, rid: RuntimeId, count: nat, env: Env, fuel: nat)
    ensures Rounds(s, action, rid, count, true, env, fuel) == Polled(None, false, count, s)
  {
  }

  /** A round that neither fails nor satisfies the condition, with the
      exit flag still down after the wait, is followed by the next round
      on the state the wait leaves. */
  lemma FailedRoundRetries(s: State, action: Value, rid: RuntimeId, count: nat, env: Env, fuel: nat)
    requires count < MaxRounds(Prop(action, "maxRetryCount"))
    requires PollRound(s, action, rid, count, env, fuel).error.None? && !PollRound(s, action, rid, count, env, fuel).satisfied
    requires !env.exitFired(PollRound(s, action, rid, count, env, fuel).state.waits)
    ensures var round := PollRound(s, action, rid, count, env, fuel);
      Rounds(s, action, rid, count, false, env, fuel)
      == Rounds(round.state.(waits := round.state.waits + 1), action, rid, count + 1, false, env, fuel)
  {
  }

  /** The state after the steps of `ts[i..k]`, each from the state the
      previous one left. */
  ghost function Chain<S, T>(step: (S, T) -> S, s: S, ts: seq<T>, i: nat, k: nat): S
    requires i <= k <= |ts|
    decreases k - i
  {
    if i == k then s else Chain(step, step(s, ts[i]), ts, i + 1, k)
  }

  /** What each of `ts[i..]` yields, each from the state the previous one left. */
  ghost function Collect<S, T, V>(step: (S, T) -> S, out: (S, T) -> V, s: S, ts: seq<T>, i: nat): (vs: seq<V>)
    requires i <= |ts|
    ensures |vs| == |ts| - i
    decreases |ts| - i
  {
    if i == |ts| then [] else [out(s, ts[i])] + Collect(step, out, step(s, ts[i]), ts, i + 1)
  }

  lemma {:induction false} CollectAt<S, T, V>(step: (S, T) -> S, out: (S, T) -> V, s: S, ts: seq<T>, i: nat, k: nat)
    requires i <= k < |ts|
    ensures Collect(step, out, s, ts, i)[k - i] == out(Chain(step, s, ts, i, k), ts[k])
    decreases k - i
  {
    if i < k {
      CollectAt(step, out, step(s, ts[i]), ts, i + 1, k);
    }
  }

  /** A target run, as a step from state to state. */
  ghost function TargetStep(rid: RuntimeId, count: nat, env: Env, fuel: nat): (State, Value) -> State {
    (b: State, target: Value) => RunTarget(b, target, rid, count, env, fuel).state
  }

  /** What a target run from state `b` contributes: the `procedureResult`
      of the runtime appended for it. */
  ghost function TargetResult(rid: RuntimeId, count: nat, env: Env, fuel: nat): (State, Value) -> Value {
    (b: State, target: Value) => RuntimeOf(RunTarget(b, target, rid, count, env, fuel).state.store, |b.store|).procedureResult
  }

  /** A round without error appends, to the results gathered so far, one
      result per target in target order, each target run from the state
      the previous one left. */
  lemma {:induction false} TargetsResults(s: State, targets: seq<Value>, i: nat, results: seq<Value>, rid: RuntimeId,
                                          count: nat, env: Env, fuel: nat)
    requires i <= |targets|
    ensures var r := Targets(s, targets, i, results, rid, count, env, fuel);
      r.error.None? ==>
        r.results == results + Collect(TargetStep(rid, count, env, fuel), TargetResult(rid, count, env, fuel), s, targets, i)
    decreases |targets| - i
  {
    if i < |targets| {
      var step, out := TargetStep(rid, count, env, fuel), TargetResult(rid, count, env, fuel);
      var run := RunTarget(s, targets[i], rid, count, env, fuel);
      if run.error.None? {
        var x := RuntimeOf(run.state.store, |s.store|).procedureResult;
        assert out(s, targets[i]) == x && step(s, targets[i]) == run.state;
        var rest := Collect(step, out, run.state, targets, i + 1);
        assert Targets(s, targets, i, results, rid, count, env, fuel)
            == Targets(run.state, targets, i + 1, results + [x], rid, count, env, fuel);
        TargetsResults(run.state, targets, i + 1, results + [x], rid, count, env, fuel);
        assert Collect(step, out, s, targets, i) == [x] + rest;
        AppendAssoc(results, [x], rest);
      }
    }
  }

  /** The `k`-th result of a round without error is the `procedureResult` of
      the fresh runtime in which the `k`-th target's procedure ran, from the
      state the earlier targets left. */
  lemma TargetResultAt(s: State, targets: seq<Value>, k: nat, rid: RuntimeId, count: nat, env: Env, fuel: nat)
    requires k < |targets|
    ensures var r := Targets(s, targets, 0, [], rid, count, env, fuel);
      var before := Chain(TargetStep(rid, count, env, fuel), s, targets, 0, k);
      r.error.None? ==>
        r.results[k] == RuntimeOf(RunTarget(before, targets[k], rid, count, env, fuel).state.store, |before.store|).procedureResult
  {
    TargetsResults(s, targets, 0, [], rid, count, env, fuel);
    CollectAt(TargetStep(rid, count, env, fuel), TargetResult(rid, count, env, fuel), s, targets, 0, k);
  }

  /** The outcome reaches the caller only when `storeOutcomeInVariable` is
      defined, and then it is whether the loop succeeded. */
  lemma OutcomeStored(s: State, action: Value, rid: RuntimeId, env: Env, fuel: nat)
    requires rid < |s.store|
    requires Rounds(s, action, rid, 0, false, env, fuel).error.None?
    ensures var polled := Rounds(s, action, rid, 0, false, env, fuel);
      var name := Prop(action, "storeOutcomeInVariable");
      var r := Poll(s, action, rid, env, fuel);
      r.error == None &&
      (name == Undefined ==> r.state == polled.state) &&
      (name != Undefined ==>
         Variable(r.state.store[rid], JsString(name)) == Bool(polled.succeeded) &&
         forall k :: k != JsString(name) ==> Variable(r.state.store[rid], k) == Variable(polled.state.store[rid], k))
  {
  }

  /** Each polled runtime starts with its target's params, then `$pollIndex`
      set to the round number, which overrides a param of that name. */
  lemma PollChildSeeded(params: Value, count: nat, k: string)
    ensures Variable(SetVariable(Seeded(params), "$pollIndex", Num(count)), k)
         == if k == "$pollIndex" then Num(count) else Variable(Seeded(params), k)
  {
  }
}
