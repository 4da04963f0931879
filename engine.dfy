/** The engine as the source runs it: the runtimes are objects updated in
    place, the preprocessor rewrites actions entry by entry, and the
    interpreter and its handlers work in loops. `ProcedureFileExecutor`
    keeps every runtime in its `runtimes` field (a runtime is named by its
    index) and counts the waits of poll loops in `waits`. Each method is
    proved equal to the function of the same name in `Executor`,
    `Preprocessor` or `CustomCommand`; the properties are proved about those
    functions. */
module Engine {

  import opened Values
  import opened Runtime
  import opened Evaluator
  import opened Preprocessor
  import CustomCommand
  import opened Executor

  /** A walk that ended with a value or an error, with the store it left. */
  function AsRewrite(r: Result<Value>, st: Store): Rewrite {
    match r
    case Good(v) => Rewritten(v, st)
    case Err(e) => RewriteFailed(e, st)
  }

  /** One target of a poll round, then the targets after it. */
  lemma TargetsAt(s: State, targets: seq<Value>, i: nat, results: seq<Value>, rid: RuntimeId, count: nat,
                  env: Env, fuel: nat)
    requires i < |targets|
    ensures var run := RunTarget(s, targets[i], rid, count, env, fuel);
      Targets(s, targets, i, results, rid, count, env, fuel)
      == if run.error.Some? then Round(run.error, results, run.state)
         else Targets(run.state, targets, i + 1, results + [RuntimeOf(run.state.store, |s.store|).procedureResult],
                      rid, count, env, fuel)
  {
  }

  /** One entry of a plain-object command. */
  lemma AssignStep(st: Store, es: seq<(string, Value)>, rid: RuntimeId, host: Host, fuel: nat)
    requires es != []
    ensures var call := Apply(st, es[0].1, [], host, fuel);
      CustomCommand.AssignEntries(st, es, rid, host, fuel)
      == if !es[0].1.Fn? then CustomCommand.AssignEntries(SetVar(st, rid, es[0].0, es[0].1), es[1..], rid, host, fuel)
         else if call.outcome.Throw? then CustomCommand.Run(Some(call.outcome.error), call.store)
         else CustomCommand.AssignEntries(SetVar(call.store, rid, es[0].0, call.outcome.value), es[1..], rid, host, fuel)
  {
  }

  class ProcedureFileExecutor {
    var runtimes: Store
    var waits: nat
    const env: Env

    function Now(): State
      reads this
    {
      State(runtimes, waits)
    }

    /** The executor with the runtime the command line starts from: no
        variables, no procedures. */
    constructor(env: Env)
      ensures this.env == env && runtimes == [NewRuntime(map[])] && waits == 0
    {
      this.env := env;
      runtimes := [NewRuntime(map[])];
      waits := 0;
    }

    // -------------------------------------------------------------------------
    // Runtimes

    /** `new PipelineRuntime()` followed by a `setVariable` per entry of
        `params || {}`. */
    method NewChildRuntime(params: Value) returns (child: RuntimeId)
      modifies this
      ensures child == |old(runtimes)|
      ensures runtimes == old(runtimes) + [Seeded(params)]
      ensures waits == old(waits)
    {
      child := |runtimes|;
      runtimes := runtimes + [NewRuntime(map[])];
      var es := Entries(OrElse(params, Obj([])));
      var i := 0;
      while i < |es|
        invariant 0 <= i <= |es|
        invariant |runtimes| == child + 1 && runtimes[..child] == old(runtimes)
        invariant SetVariables(runtimes[child], es[i..]) == Seeded(params)
        invariant waits == old(waits)
      {
        assert es[i..][1..] == es[i + 1..];
        runtimes := SetVar(runtimes, child, es[i].0, es[i].1);
        i := i + 1;
      }
      assert runtimes == old(runtimes) + [runtimes[child]];
    }

    // -------------------------------------------------------------------------
    // The preprocessor

    /** `replaceRuntimeSymbolInObject` / `replaceRuntimeSymbolInArray`: every
        entry in order is either replaced by its directive, walked when it is
        an array or a plain object, or left alone. */
    method ReplaceRuntimeSymbols(v: Value, rid: RuntimeId, fuel: nat) returns (r: Result<Value>)
      requires IsContainer(v)
      modifies this
      ensures AsRewrite(r, runtimes) == Preprocessor.Walk(old(runtimes), v, rid, env.host, fuel)
      ensures waits == old(waits)
      decreases v
    {
      var n := |Children(v)|;
      var done: seq<Value> := [];
      var i := 0;
      while i < n
        invariant 0 <= i <= n && |done| == i
        invariant WalkFrom(runtimes, v, i, done, rid, env.host, fuel) == Preprocessor.Walk(old(runtimes), v, rid, env.host, fuel)
        invariant waits == old(waits)
        decreases n - i
      {
        var c := if v.Arr? then v.items[i] else v.entries[i].1;
        assert c == Children(v)[i];
        match SpecialKey(runtimes, c, rid, env.host, fuel) {
          case Some(RewriteFailed(e, st)) =>
            runtimes := st;
            return Err(e);
          case Some(Rewritten(x, st)) =>
            runtimes := st;
            done := done + [x];
          case None =>
            if IsContainer(c) {
              var w := ReplaceRuntimeSymbols(c, rid, fuel);
              if w.Err? {
                return w;
              }
              done := done + [w.value];
            } else {
              done := done + [c];
            }
        }
        i := i + 1;
      }
      r := Good(Rebuild(v, done));
    }

    /** `preprocess(action, runtime)`. */
    method PreprocessAction(action: Value, rid: RuntimeId, fuel: nat) returns (r: Result<Value>)
      modifies this
      ensures AsRewrite(r, runtimes) == Preprocess(old(runtimes), action, rid, env.host, fuel)
      ensures waits == old(waits)
    {
      if IsContainer(action) {
        r := ReplaceRuntimeSymbols(action, rid, fuel);
      } else if action == Undefined || action == Null {
        r := Err(TypeError("Cannot convert undefined or null to object"));
      } else {
        r := Good(action);
      }
    }

    // -------------------------------------------------------------------------
    // The interpreter

    /** `executeProcedureFile(path, runtime)`. */
    method ExecuteProcedureFile(path: Value, rid: RuntimeId, fuel: nat) returns (error: Option<Error>)
      modifies this
      ensures Done(error, Now()) == Executor.ExecuteProcedureFile(old(Now()), path, rid, env, fuel)
      decreases fuel, 10, 0
    {
      match env.loadFile(path)
      case LoadFailed(what) =>
        error := Some(HostError(what));
      case Loaded(actions) =>
        error := EvaluateProcedureSteps(actions, rid, fuel);
    }

    /** `evaluateProcedureSteps(actions, runtime)`: the `finally` sets
        `procedureResult` whatever happened. */
    method EvaluateProcedureSteps(actions: Value, rid: RuntimeId, fuel: nat) returns (error: Option<Error>)
      modifies this
      ensures Done(error, Now()) == EvaluateSteps(old(Now()), actions, rid, env, fuel)
      decreases fuel, 9, 0
    {
      var status := ExecuteProcedureSteps(actions, rid, fuel);
      var result := Undefined;
      error := None;
      if status.Return? {
        result := status.value;
      } else if status.Fail? {
        error := Some(status.error);
      }
      runtimes := SetResult(runtimes, rid, result);
    }

    /** `executeProcedureSteps(actions, runtime)`. */
    method ExecuteProcedureSteps(actions: Value, rid: RuntimeId, fuel: nat) returns (status: Status)
      modifies this
      ensures Step(status, Now()) == ExecuteSteps(old(Now()), actions, rid, env, fuel)
      decreases fuel, 8, 0
    {
      match Iterate(actions)
      case Err(e) =>
        status := Fail(e);
      case Good(items) =>
        assert ExecuteSteps(Now(), actions, rid, env, fuel) == Steps(Now(), items, 0, rid, env, fuel);
        status := Continue;
        var i := 0;
        while i < |items|
          invariant 0 <= i <= |items|
          invariant Steps(Now(), items, i, rid, env, fuel) == ExecuteSteps(old(Now()), actions, rid, env, fuel)
          invariant status == Continue
        {
          ghost var s := Now();
          status := ExecuteStep(items[i], rid, fuel);
          assert Steps(s, items, i, rid, env, fuel)
              == if status.Continue? then Steps(Now(), items, i + 1, rid, env, fuel) else Step(status, Now());
          if !status.Continue? {
            return;
          }
          i := i + 1;
        }
        assert Steps(Now(), items, i, rid, env, fuel) == Step(Continue, Now());
    }

    /** One turn of the loop of `executeProcedureSteps`. */
    method ExecuteStep(action: Value, rid: RuntimeId, fuel: nat) returns (status: Status)
      modifies this
      ensures Step(status, Now()) == Executor.ExecuteStep(old(Now()), action, rid, env, fuel)
      decreases fuel, 6, 0
    {
      match Field(action, "kind")
      case Err(e) =>
        status := Fail(e);
      case Good(kind) =>
        if kind == Str("private-procedure") {
          runtimes := AddProcedureIn(runtimes, rid, Prop(action, "name"), Prop(action, "steps"));
          status := Continue;
        } else if Prop(action, "skip") == Bool(true) {
          status := Continue;
        } else if action.Obj? && Lookup(action.entries, "condition") != Undefined {
          match RewriteCondition(runtimes, action, rid, env.host, fuel)
          case RewriteFailed(e, st) =>
            runtimes := st;
            status := Raise(e);
          case Rewritten(a, st) =>
            runtimes := st;
            if !Truthy(Prop(a, "condition")) {
              status := Continue;
            } else {
              status := Execute(a, rid, fuel);
            }
        } else {
          status := Execute(action, rid, fuel);
        }
    }

    /** `_execute(action, runtime)`. */
    method Execute(action: Value, rid: RuntimeId, fuel: nat) returns (status: Status)
      modifies this
      ensures Step(status, Now()) == Executor.Execute(old(Now()), action, rid, env, fuel)
      decreases fuel, 5, 0
    {
      var kind := Prop(action, "kind");
      if !kind.Str? || kind.s !in Handlers {
        return Continue;
      }
      var pre := PreprocessAction(action, rid, fuel);
      match pre
      case Err(e) =>
        status := Raise(e);
      case Good(a) =>
        var error := RunHandler(Handlers[kind.s], a, rid, fuel);
        status := if error.Some? then Raise(error.value) else Continue;
    }

    /** `actionHandler.run(action, runtime)`. */
    method RunHandler(h: HandlerKind, action: Value, rid: RuntimeId, fuel: nat) returns (error: Option<Error>)
      modifies this
      ensures Done(error, Now()) == Executor.RunHandler(old(Now()), h, action, rid, env, fuel)
      decreases fuel, 4, 0
    {
      match h
      case CustomCommandHandler =>
        error := RunCustomCommand(action, rid, fuel);
      case InvokeProcedureFile =>
        error := RunInvoke(action, rid, fuel);
      case PollTarget =>
        error := RunPoll(action, rid, fuel);
      case External(kind) =>
        var (writes, e) := env.external(kind, action);
        runtimes := SetVarsIn(runtimes, rid, writes);
        error := e;
    }

    /** `executeRuntimeProcedure(path, parent, child)`. */
    method ExecuteRuntimeProcedure(path: Value, parent: RuntimeId, child: Option<RuntimeId>, fuel: nat)
      returns (error: Option<Error>)
      modifies this
      ensures Done(error, Now()) == RunProcedure(old(Now()), path, parent, child, env, fuel)
      decreases fuel, 0, 0
    {
      if fuel == 0 {
        return Some(OutOfFuel);
      }
      var target := child.GetOr(parent);
      var steps := GetProcedure(RuntimeOf(runtimes, parent), path);
      if steps != Undefined {
        error := EvaluateProcedureSteps(steps, target, fuel - 1);
      } else {
        error := ExecuteProcedureFile(path, target, fuel - 1);
      }
    }

    // -------------------------------------------------------------------------
    // The handlers

    /** The assert loop of `CustomCommandActionHandler.run`: it reads the
        action and changes nothing. */
    method CheckAsserts(action: Value) returns (error: Option<Error>)
      ensures error == CustomCommand.CheckAsserts(Prop(action, "asserts"))
    {
      var asserts := Prop(action, "asserts");
      if asserts == Undefined {
        return None;
      }
      match Iterate(asserts)
      case Err(e) =>
        error := Some(e);
      case Good(items) =>
        var i := 0;
        while i < |items|
          invariant 0 <= i <= |items|
          invariant CustomCommand.FirstFailure(items[i..]) == CustomCommand.FirstFailure(items)
        {
          assert items[i..][1..] == items[i + 1..];
          var condition := Field(items[i], "condition");
          if condition.Err? {
            return Some(condition.error);
          }
          if condition.value != Bool(true) {
            return Some(AssertionFailed(Prop(items[i], "message")));
          }
          i := i + 1;
        }
        error := None;
    }

    /** The assignment loop for one plain-object command: a function value
        is called with no arguments and its result stored. */
    method AssignEntries(entries: seq<(string, Value)>, rid: RuntimeId, fuel: nat) returns (error: Option<Error>)
      modifies this
      ensures CustomCommand.Run(error, runtimes) == CustomCommand.AssignEntries(old(runtimes), entries, rid, env.host, fuel)
      ensures waits == old(waits)
    {
      var k := 0;
      while k < |entries|
        invariant 0 <= k <= |entries|
        invariant CustomCommand.AssignEntries(runtimes, entries[k..], rid, env.host, fuel)
               == CustomCommand.AssignEntries(old(runtimes), entries, rid, env.host, fuel)
        invariant waits == old(waits)
      {
        assert entries[k..][1..] == entries[k + 1..];
        ghost var st := runtimes;
        AssignStep(st, entries[k..], rid, env.host, fuel);
        var name := entries[k].0;
        var computed := entries[k].1;
        if computed.Fn? {
          var call := Apply(runtimes, computed, [], env.host, fuel);
          runtimes := call.store;
          if call.outcome.Throw? {
            assert CustomCommand.AssignEntries(st, entries[k..], rid, env.host, fuel)
                == CustomCommand.Run(Some(call.outcome.error), runtimes);
            return Some(call.outcome.error);
          }
          computed := call.outcome.value;
        }
        runtimes := SetVar(runtimes, rid, name, computed);
        assert CustomCommand.AssignEntries(st, entries[k..], rid, env.host, fuel)
            == CustomCommand.AssignEntries(runtimes, entries[k + 1..], rid, env.host, fuel);
        k := k + 1;
      }
      error := None;
    }

    /** `CustomCommandActionHandler.run`: the asserts, then the commands. */
    method RunCustomCommand(action: Value, rid: RuntimeId, fuel: nat) returns (error: Option<Error>)
      modifies this
      ensures CustomCommand.Run(error, runtimes) == CustomCommand.RunCustomCommand(old(runtimes), action, rid, env.host, fuel)
      ensures waits == old(waits)
    {
      error := CheckAsserts(action);
      if error.Some? {
        return;
      }
      var commands: seq<Value> := [];
      if Prop(action, "cmd") != Undefined {
        commands := commands + [Prop(action, "cmd")];
      }
      if Prop(action, "assigns") != Undefined {
        commands := commands + CustomCommand.Spread(Prop(action, "assigns"));
      }
      assert commands == CustomCommand.Commands(action);
      error := RunCommands(commands, rid, fuel);
    }

    /** The commands of `CustomCommandActionHandler.run`, in order, up to
        the first that fails. */
    method RunCommands(commands: seq<Value>, rid: RuntimeId, fuel: nat) returns (error: Option<Error>)
      modifies this
      ensures CustomCommand.Run(error, runtimes) == CustomCommand.RunCommands(old(runtimes), commands, rid, env.host, fuel)
      ensures waits == old(waits)
    {
      error := None;
      var j := 0;
      while j < |commands|
        invariant 0 <= j <= |commands|
        invariant CustomCommand.RunCommands(runtimes, commands[j..], rid, env.host, fuel)
               == CustomCommand.RunCommands(old(runtimes), commands, rid, env.host, fuel)
        invariant waits == old(waits)
        invariant error == None
      {
        assert commands[j..] == [commands[j]] + commands[j + 1..];
        error := RunCommand(commands[j], commands[j + 1..], rid, fuel);
        if error.Some? {
          return;
        }
        j := j + 1;
      }
    }

    /** One command of `CustomCommandActionHandler.run`: a function is
        called with no arguments, an object assigns its entries, anything
        else is skipped. */
    method RunCommand(step: Value, ghost rest: seq<Value>, rid: RuntimeId, fuel: nat) returns (error: Option<Error>)
      modifies this
      ensures error.Some? ==>
        CustomCommand.Run(error, runtimes) == CustomCommand.RunCommands(old(runtimes), [step] + rest, rid, env.host, fuel)
      ensures error.None? ==>
        CustomCommand.RunCommands(runtimes, rest, rid, env.host, fuel)
          == CustomCommand.RunCommands(old(runtimes), [step] + rest, rid, env.host, fuel)
      ensures waits == old(waits)
    {
      assert ([step] + rest)[1..] == rest;
      if step.Fn? {
        var call := Apply(runtimes, step, [], env.host, fuel);
        runtimes := call.store;
        if call.outcome.Throw? {
          return Some(call.outcome.error);
        }
      } else if step.Obj? {
        error := AssignEntries(step.entries, rid, fuel);
        return;
      }
      error := None;
    }

    /** `InvokeProcedureFileActionHandler.run`. */
    method RunInvoke(action: Value, rid: RuntimeId, fuel: nat) returns (error: Option<Error>)
      modifies this
      ensures Done(error, Now()) == Invoke(old(Now()), action, rid, env, fuel)
      decreases fuel, 3, 0
    {
      var child := NewChildRuntime(Prop(action, "params"));
      error := ExecuteRuntimeProcedure(Prop(action, "path"), rid, Some(child), fuel);
      var name := Prop(action, "storeReturnedValueInVariable");
      if error.None? && name != Undefined {
        runtimes := SetVar(runtimes, rid, JsString(name), RuntimeOf(runtimes, child).procedureResult);
      }
    }

    /** `PollTargetActionHandler.run`. */
    method RunPoll(action: Value, rid: RuntimeId, fuel: nat) returns (error: Option<Error>)
      modifies this
      ensures Done(error, Now()) == Poll(old(Now()), action, rid, env, fuel)
      decreases fuel, 3, 0
    {
      ghost var polled := Rounds(Now(), action, rid, 0, false, env, fuel);
      assert Poll(old(Now()), action, rid, env, fuel) == StoreOutcome(polled, action, rid);
      var succeeded;
      error, succeeded := RunPollLoop(action, rid, fuel);
      if error.Some? {
        return;
      }
      var name := Prop(action, "storeOutcomeInVariable");
      if name != Undefined {
        runtimes := SetVar(runtimes, rid, JsString(name), Bool(succeeded));
      }
    }

    /** The `while` loop of the poll handler, up to `maxRetryCount` rounds
        or until the exit flag is raised. */
    method RunPollLoop(action: Value, rid: RuntimeId, fuel: nat) returns (error: Option<Error>, succeeded: bool)
      modifies this
      ensures Rounds(old(Now()), action, rid, 0, false, env, fuel).error == error
      ensures Rounds(old(Now()), action, rid, 0, false, env, fuel).succeeded == succeeded
      ensures Rounds(old(Now()), action, rid, 0, false, env, fuel).state == Now()
      decreases fuel, 2, 2
    {
      var count := 0;
      var exited := false;
      var maxRounds := MaxRounds(Prop(action, "maxRetryCount"));
      ghost var polled := Rounds(Now(), action, rid, 0, false, env, fuel);
      error := None;
      succeeded := false;
      while count < maxRounds && !exited
        invariant Rounds(Now(), action, rid, count, exited, env, fuel) == polled
        invariant !succeeded
        invariant error == None
        decreases maxRounds - count
      {
        var satisfied;
        error, satisfied, exited := RunPollTurn(action, rid, count, fuel);
        if error.Some? {
          return;
        }
        if satisfied {
          succeeded := true;
          return;
        }
        count := count + 1;
      }
    }

    /** One turn of the `while` loop of the poll handler: a round, then,
        when it neither failed nor satisfied the exit condition, a wait and
        a new reading of the exit flag. */
    method RunPollTurn(action: Value, rid: RuntimeId, count: nat, fuel: nat) returns (error: Option<Error>, satisfied: bool, exited: bool)
      requires count < MaxRounds(Prop(action, "maxRetryCount"))
      modifies this
      ensures error.Some? ==> Rounds(old(Now()), action, rid, count, false, env, fuel) == Polled(error, false, count + 1, Now())
      ensures error.None? && satisfied ==> Rounds(old(Now()), action, rid, count, false, env, fuel) == Polled(None, true, count + 1, Now())
      ensures error.None? && !satisfied ==>
        Rounds(old(Now()), action, rid, count, false, env, fuel) == Rounds(Now(), action, rid, count + 1, exited, env, fuel)
      decreases fuel, 2, 1
    {
      ghost var start := Now();
      error, satisfied := RunPollRound(action, rid, count, fuel);
      ghost var round := Checked(error, satisfied, Now());
      assert Rounds(start, action, rid, count, false, env, fuel) ==
        if round.error.Some? then Polled(round.error, false, count + 1, round.state)
        else if round.satisfied then Polled(None, true, count + 1, round.state)
        else Rounds(round.state.(waits := round.state.waits + 1), action, rid, count + 1,
                    env.exitFired(round.state.waits), env, fuel);
      exited := false;
      if error.None? && !satisfied {
        exited := env.exitFired(waits);
        waits := waits + 1;
        assert Now() == round.state.(waits := round.state.waits + 1);
      }
    }

    /** One round of the `while` loop of the poll handler: the targets, then
        `exitPollCondition` on their results. */
    method RunPollRound(action: Value, rid: RuntimeId, count: nat, fuel: nat) returns (error: Option<Error>, satisfied: bool)
      modifies this
      ensures Checked(error, satisfied, Now()) == PollRound(old(Now()), action, rid, count, env, fuel)
      decreases fuel, 2, 0
    {
      match Iterate(OrElse(Prop(action, "targets"), Arr([]))) {
        case Err(e) =>
          return Some(e), false;
        case Good(targets) =>
          var results;
          error, results := RunRound(targets, rid, count, fuel);
          if error.Some? {
            return error, false;
          }
          var check := Apply(runtimes, Prop(action, "exitPollCondition"), results, env.host, fuel);
          runtimes := check.store;
          if check.outcome.Throw? {
            return Some(check.outcome.error), false;
          }
          satisfied := check.outcome.value == Bool(true);
      }
    }

    /** One target of the `for` loop of the poll handler: a fresh runtime
        seeded with the target's params and `$pollIndex`, then its procedure. */
    method RunPollTarget(target: Value, rid: RuntimeId, count: nat, fuel: nat) returns (error: Option<Error>)
      modifies this
      ensures Done(error, Now()) == RunTarget(old(Now()), target, rid, count, env, fuel)
      decreases fuel, 0, 1
    {
      match Field(target, "params") {
        case Err(e) =>
          return Some(e);
        case Good(params) =>
          var child := NewChildRuntime(params);
          runtimes := SetVar(runtimes, child, "$pollIndex", Num(count));
          assert runtimes == old(runtimes) + [SetVariable(Seeded(params), "$pollIndex", Num(count))];
          error := ExecuteRuntimeProcedure(Prop(target, "polledProcedurePath"), rid, Some(child), fuel);
      }
    }

    /** The `for` loop over the targets in one round of the poll handler. */
    method RunRound(targets: seq<Value>, rid: RuntimeId, count: nat, fuel: nat)
      returns (error: Option<Error>, results: seq<Value>)
      modifies this
      ensures Round(error, results, Now()) == Targets(old(Now()), targets, 0, [], rid, count, env, fuel)
      decreases fuel, 1, 0
    {
      results := [];
      var i := 0;
      while i < |targets|
        invariant 0 <= i <= |targets|
        invariant Targets(Now(), targets, i, results, rid, count, env, fuel)
               == Targets(old(Now()), targets, 0, [], rid, count, env, fuel)
      {
        ghost var s := Now();
        var child := |runtimes|;
        TargetsAt(s, targets, i, results, rid, count, env, fuel);
        error := RunPollTarget(targets[i], rid, count, fuel);
        if error.Some? {
          return;
        }
        results := results + [RuntimeOf(runtimes, child).procedureResult];
        i := i + 1;
      }
      error := None;
    }
  }
}
