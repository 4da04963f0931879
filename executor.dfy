/** The step interpreter (`ProcedureFileExecutor`) and the three action
    handlers whose work is control over runtimes (`custom-command`,
    `invoke-procedure-file`, `poll-target`), as functions of the engine
    state. `Engine` in engine.dfy holds the same state in fields and runs the
    same steps with loops; each of its methods is proved equal to the
    function of the same name here.

    The state is the store of runtimes and the number of waits the poll loop
    has made so far; the application exit signal is an oracle read after
    each wait. Procedure files are read through an oracle too, and the
    handlers that talk to external systems are oracles that name the
    variables they write and the error they raise. */
module Executor {

  import opened Values
  import opened Runtime
  import opened Evaluator
  import opened Preprocessor
  import CustomCommand

  /** How an action, or a run of actions, ended: normally, through the
      `return` built-in (the error named `exit_procedure`), or with any
      other error. */
  datatype Status = Continue | Return(value: Value) | Fail(error: Error)

  /** An error thrown out of a step: `exit_procedure` is a return. */
  function Raise(e: Error): (s: Status)
    ensures s.Return? <==> e.ExitProcedure?
    ensures s.Return? ==> s.value == e.returnedValue
    ensures s.Fail? ==> s.error == e
    ensures !s.Continue?
  {
    if e.ExitProcedure? then Return(e.returnedValue) else Fail(e)
  }

  datatype HandlerKind = CustomCommandHandler | InvokeProcedureFile | PollTarget | External(kind: string)

  /** The handler map, by action kind. */
  const Handlers: map<string, HandlerKind> := map[
    "filter-log" := External("filter-log"),
    "sql-query" := External("sql-query"),
    "mongo-query" := External("mongo-query"),
    "puppeteer-job" := External("puppeteer-job"),
    "http-request" := External("http-request"),
    "shell" := External("shell"),
    "custom-command" := CustomCommandHandler,
    "invoke-procedure-file" := InvokeProcedureFile,
    "poll-target" := PollTarget,
    "spawn" := External("spawn")
  ]

  /** Reading and parsing a procedure file: the actions, or the reason it
      failed. */
  datatype Loaded = Loaded(actions: Value) | LoadFailed(what: string)

  /** What the engine cannot see: host built-ins, the procedure-file loader,
      the exit signal after the `n`-th wait, and the external handlers (the
      variables each writes to the calling runtime, in order, then the error
      it raises, if any). */
  datatype Env = Env(
    host: Host,
    loadFile: Value -> Loaded,
    exitFired: nat -> bool,
    external: (string, Value) -> (seq<(string, Value)>, Option<Error>))

  datatype State = State(store: Store, waits: nat)

  /** The status of a step or a run of steps, and the state after it. */
  datatype Step = Step(status: Status, state: State)

  /** A handler or a procedure run: the error it threw, and the state. */
  datatype Done = Done(error: Option<Error>, state: State)

  /** A poll loop: its error, whether the exit condition held, how many
      rounds started, and the state. */
  datatype Polled = Polled(error: Option<Error>, succeeded: bool, rounds: nat, state: State)

  /** A poll round: its error, whether the exit condition returned exactly
      `true`, and the state. */
  datatype Checked = Checked(error: Option<Error>, satisfied: bool, state: State)

  /** The targets of a poll round: the error, the results of the targets
      run, and the state. */
  datatype Round = Round(error: Option<Error>, results: seq<Value>, state: State)

  // ---------------------------------------------------------------------------
  // Store helpers

  /** `runtime.procedureResult = v`. */
  function SetResult(st: Store, id: RuntimeId, v: Value): (r: Store)
    ensures |r| == |st|
    ensures id < |st| ==> r[id] == st[id].(procedureResult := v)
    ensures forall j :: 0 <= j < |st| && j != id ==> r[j] == st[j]
  {
    if id < |st| then st[id := st[id].(procedureResult := v)] else st
  }

  /** `addPrivateProcedure` on the runtime `id`. */
  function AddProcedureIn(st: Store, id: RuntimeId, name: Value, steps: Value): (r: Store)
    ensures |r| == |st|
    ensures id < |st| ==> r[id] == AddPrivateProcedure(st[id], name, steps)
    ensures forall j :: 0 <= j < |st| && j != id ==> r[j] == st[j]
  {
    if id < |st| then st[id := AddPrivateProcedure(st[id], name, steps)] else st
  }

  /** A `setVariable` per entry on the runtime `id`. */
  function SetVarsIn(st: Store, id: RuntimeId, es: seq<(string, Value)>): (r: Store)
    ensures |r| == |st|
    ensures id < |st| ==> r[id] == SetVariables(st[id], es)
    ensures forall j :: 0 <= j < |st| && j != id ==> r[j] == st[j]
  {
    if id < |st| then st[id := SetVariables(st[id], es)] else st
  }

  /** A fresh runtime with one variable per entry of `params || {}`. */
  function Seeded(params: Value): PipelineRuntime {
    SetVariables(NewRuntime(map[]), Entries(OrElse(params, Obj([]))))
  }

  /** `currentRetryCount < maxRetryCount` for a count from zero: the number
      of rounds a numeric bound allows. */
  function MaxRounds(bound: Value): nat {
    if bound.Num? && bound.n > 0 then bound.n else 0
  }

  /** No runtime disappears, and every runtime other than `t` keeps its
      private procedures and its `procedureResult`: variables are all an
      action can change elsewhere. */
  predicate KeepsOthers(st: Store, st': Store, t: RuntimeId) {
    |st'| >= |st| &&
    forall j :: 0 <= j < |st| && j != t ==>
      st'[j].procedures == st[j].procedures && st'[j].procedureResult == st[j].procedureResult
  }

  // ---------------------------------------------------------------------------
  // The interpreter

  /** `executeProcedureFile(path, runtime)`. */
  function ExecuteProcedureFile(s: State, path: Value, rid: RuntimeId, env: Env, fuel: nat): (r: Done)
    ensures KeepsOthers(s.store, r.state.store, rid)
    ensures r.error.Some? ==> !r.error.value.ExitProcedure?
    decreases fuel, 10, 0
  {
    match env.loadFile(path)
    case LoadFailed(what) => Done(Some(HostError(what)), s)
    case Loaded(actions) => EvaluateSteps(s, actions, rid, env, fuel)
  }

  /** `evaluateProcedureSteps(actions, runtime)`: the steps run, then
      `procedureResult` is the returned value, or `undefined` on a normal
      finish and on an error, which is passed on. */
  function EvaluateSteps(s: State, actions: Value, rid: RuntimeId, env: Env, fuel: nat): (r: Done)
    ensures KeepsOthers(s.store, r.state.store, rid)
    ensures r.error.Some? ==> !r.error.value.ExitProcedure?
    decreases fuel, 9, 0
  {
    var run := ExecuteSteps(s, actions, rid, env, fuel);
    var result := if run.status.Return? then run.status.value else Undefined;
    Done(if run.status.Fail? then Some(run.status.error) else None,
         run.state.(store := SetResult(run.state.store, rid, result)))
  }

  /** `executeProcedureSteps(actions, runtime)`: the `for ... of` over the
      actions. */
  function ExecuteSteps(s: State, actions: Value, rid: RuntimeId, env: Env, fuel: nat): (r: Step)
    ensures KeepsOthers(s.store, r.state.store, rid)
    ensures r.status.Fail? ==> !r.status.error.ExitProcedure?
    decreases fuel, 8, 0
  {
    match Iterate(actions)
    case Err(e) => Step(Fail(e), s)
    case Good(items) => Steps(s, items, 0, rid, env, fuel)
  }

  /** The actions from the `i`-th on, in order, up to the first that does
      not end normally. */
  function Steps(s: State, actions: seq<Value>, i: nat, rid: RuntimeId, env: Env, fuel: nat): (r: Step)
    requires i <= |actions|
    ensures KeepsOthers(s.store, r.state.store, rid)
    ensures r.status.Fail? ==> !r.status.error.ExitProcedure?
    decreases fuel, 7, |actions| - i
  {
    if i == |actions| then Step(Continue, s)
    else
      var step := ExecuteStep(s, actions[i], rid, env, fuel);
      if step.status.Continue? then Steps(step.state, actions, i + 1, rid, env, fuel) else step
  }

  /** The body of the loop for one action: `private-procedure`, `skip`,
      `condition`, then `_execute`. */
  function ExecuteStep(s: State, action: Value, rid: RuntimeId, env: Env, fuel: nat): (r: Step)
    ensures KeepsOthers(s.store, r.state.store, rid)
    ensures r.status.Fail? ==> !r.status.error.ExitProcedure?
    decreases fuel, 6, 0
  {
    match Field(action, "kind")
    case Err(e) => Step(Fail(e), s)
    case Good(kind) =>
      if kind == Str("private-procedure") then
        Step(Continue, s.(store := AddProcedureIn(s.store, rid, Prop(action, "name"), Prop(action, "steps"))))
      else if Prop(action, "skip") == Bool(true) then Step(Continue, s)
      else if action.Obj? && Lookup(action.entries, "condition") != Undefined then
        (match RewriteCondition(s.store, action, rid, env.host, fuel)
         case RewriteFailed(e, st) => Step(Raise(e), s.(store := st))
         case Rewritten(a, st) =>
           if !Truthy(Prop(a, "condition")) then Step(Continue, s.(store := st))
           else Execute(s.(store := st), a, rid, env, fuel))
      else Execute(s, action, rid, env, fuel)
  }

  /** `_execute(action, runtime)`: the handler is looked up by kind first;
      an unknown kind is skipped untouched. Otherwise the action is
      preprocessed and handed to the handler. */
  function Execute(s: State, action: Value, rid: RuntimeId, env: Env, fuel: nat): (r: Step)
    ensures KeepsOthers(s.store, r.state.store, rid)
    ensures r.status.Fail? ==> !r.status.error.ExitProcedure?
    decreases fuel, 5, 0
  {
    var kind := Prop(action, "kind");
    if !kind.Str? || kind.s !in Handlers then Step(Continue, s)
    else
      match Preprocess(s.store, action, rid, env.host, fuel)
      case RewriteFailed(e, st) => Step(Raise(e), s.(store := st))
      case Rewritten(a, st) =>
        var done := RunHandler(s.(store := st), Handlers[kind.s], a, rid, env, fuel);
        Step(if done.error.Some? then Raise(done.error.value) else Continue, done.state)
  }

  /** `actionHandler.run(action, runtime)`. */
  function RunHandler(s: State, h: HandlerKind, action: Value, rid: RuntimeId, env: Env, fuel: nat): (r: Done)
    ensures KeepsOthers(s.store, r.state.store, rid)
    decreases fuel, 4, 0
  {
    match h
    case CustomCommandHandler =>
      var run := CustomCommand.RunCustomCommand(s.store, action, rid, env.host, fuel);
      Done(run.error, s.(store := run.store))
    case InvokeProcedureFile => Invoke(s, action, rid, env, fuel)
    case PollTarget => Poll(s, action, rid, env, fuel)
    case External(kind) =>
      var (writes, error) := env.external(kind, action);
      Done(error, s.(store := SetVarsIn(s.store, rid, writes)))
  }

  /** `InvokeProcedureFileActionHandler.run`: a child runtime seeded with
      `params` runs the procedure `path`, resolved through the caller; then
      the caller may store the child's result. */
  function Invoke(s: State, action: Value, rid: RuntimeId, env: Env, fuel: nat): (r: Done)
    ensures KeepsOthers(s.store, r.state.store, |s.store|)
    ensures r.error.Some? ==> !r.error.value.ExitProcedure?
    decreases fuel, 3, 0
  {
    var child := |s.store|;
    var run := RunProcedure(s.(store := s.store + [Seeded(Prop(action, "params"))]),
                            Prop(action, "path"), rid, Some(child), env, fuel);
    var name := Prop(action, "storeReturnedValueInVariable");
    if run.error.Some? || name == Undefined then run
    else Done(None, run.state.(store := SetVar(run.state.store, rid, JsString(name),
                                               RuntimeOf(run.state.store, child).procedureResult)))
  }

  /** `PollTargetActionHandler.run`: the rounds, then the outcome stored when
      `storeOutcomeInVariable` is defined. */
  function Poll(s: State, action: Value, rid: RuntimeId, env: Env, fuel: nat): (r: Done)
    ensures KeepsOthers(s.store, r.state.store, |s.store|)
    decreases fuel, 3, 0
  {
    StoreOutcome(Rounds(s, action, rid, 0, false, env, fuel), action, rid)
  }

  /** After the poll loop: an error ends the action; otherwise, when
      `storeOutcomeInVariable` is set, whether the exit condition held is
      stored under that name. */
  function StoreOutcome(polled: Polled, action: Value, rid: RuntimeId): (r: Done)
    ensures KeepsOthers(polled.state.store, r.state.store, |polled.state.store|)
  {
    var name := Prop(action, "storeOutcomeInVariable");
    if polled.error.Some? || name == Undefined then Done(polled.error, polled.state)
    else Done(None, polled.state.(store := SetVar(polled.state.store, rid, JsString(name), Bool(polled.succeeded))))
  }

  /** The `while` loop of the poll handler with `count` rounds behind it and
      the exit flag as last read. Only a condition of exactly `true` ends
      the loop with success; otherwise the count goes up, the loop waits,
      and the exit flag is read again. */
  function Rounds(s: State, action: Value, rid: RuntimeId, count: nat, exited: bool, env: Env, fuel: nat): (r: Polled)
    ensures KeepsOthers(s.store, r.state.store, |s.store|)
    ensures count <= r.rounds && (r.rounds <= MaxRounds(Prop(action, "maxRetryCount")) || r.rounds == count)
    decreases fuel, 2, MaxRounds(Prop(action, "maxRetryCount")) - count
  {
    if !(count < MaxRounds(Prop(action, "maxRetryCount")) && !exited) then Polled(None, false, count, s)
    else
      var round := PollRound(s, action, rid, count, env, fuel);
      if round.error.Some? then Polled(round.error, false, count + 1, round.state)
      else if round.satisfied then Polled(None, true, count + 1, round.state)
      else Rounds(round.state.(waits := round.state.waits + 1), action, rid, count + 1,
                  env.exitFired(round.state.waits), env, fuel)
  }

  /** One round of the poll loop: every target runs, then
      `exitPollCondition` is called with their results. */
  function PollRound(s: State, action: Value, rid: RuntimeId, count: nat, env: Env, fuel: nat): (r: Checked)
    ensures KeepsOthers(s.store, r.state.store, |s.store|)
    decreases fuel, 2, 0
  {
    match Iterate(OrElse(Prop(action, "targets"), Arr([])))
    case Err(e) => Checked(Some(e), false, s)
    case Good(targets) =>
      var round := Targets(s, targets, 0, [], rid, count, env, fuel);
      if round.error.Some? then Checked(round.error, false, round.state)
      else
        var check := Apply(round.state.store, Prop(action, "exitPollCondition"), round.results, env.host, fuel);
        var s1 := round.state.(store := check.store);
        if check.outcome.Throw? then Checked(Some(check.outcome.error), false, s1)
        else Checked(None, check.outcome.value == Bool(true), s1)
  }

  /** The targets of one round from the `i`-th on: each runs its procedure in
      a fresh runtime seeded with its params and then `$pollIndex`, resolved
      through the caller, and contributes that runtime's result. */
  function Targets(s: State, targets: seq<Value>, i: nat, results: seq<Value>, rid: RuntimeId, count: nat,
                   env: Env, fuel: nat): (r: Round)
    requires i <= |targets|
    ensures KeepsOthers(s.store, r.state.store, |s.store|)
    ensures r.error.None? ==> |r.results| == |results| + |targets| - i && r.results[..|results|] == results
    decreases fuel, 1, |targets| - i
  {
    if i == |targets| then Round(None, results, s)
    else
      var run := RunTarget(s, targets[i], rid, count, env, fuel);
      if run.error.Some? then Round(run.error, results, run.state)
      else
        var rest := Targets(run.state, targets, i + 1, results + [RuntimeOf(run.state.store, |s.store|).procedureResult],
                            rid, count, env, fuel);
        assert rest.error.None? ==> rest.results[..|results|] == rest.results[..|results| + 1][..|results|];
        rest
  }

  /** One target of a poll round: its procedure runs in a fresh runtime,
      appended to the store, seeded with its params and then `$pollIndex`. */
  function RunTarget(s: State, target: Value, rid: RuntimeId, count: nat, env: Env, fuel: nat): (r: Done)
    ensures KeepsOthers(s.store, r.state.store, |s.store|)
    decreases fuel, 0, 1
  {
    match Field(target, "params")
    case Err(e) => Done(Some(e), s)
    case Good(params) =>
      var seeded := SetVariable(Seeded(params), "$pollIndex", Num(count));
      RunProcedure(s.(store := s.store + [seeded]), Prop(target, "polledProcedurePath"), rid, Some(|s.store|), env, fuel)
  }

  /** `executeRuntimeProcedure(path, parent, child)`: the parent's private
      procedure of that name when there is one, otherwise the procedure
      file; run against the child, or the parent when there is none. */
  function RunProcedure(s: State, path: Value, parent: RuntimeId, child: Option<RuntimeId>, env: Env, fuel: nat): (r: Done)
    ensures KeepsOthers(s.store, r.state.store, child.GetOr(parent))
    ensures r.error.Some? ==> !r.error.value.ExitProcedure?
    decreases fuel, 0, 0
  {
    if fuel == 0 then Done(Some(OutOfFuel), s)
    else
      var target := child.GetOr(parent);
      var steps := GetProcedure(RuntimeOf(s.store, parent), path);
      if steps != Undefined then EvaluateSteps(s, steps, target, env, fuel - 1)
      else ExecuteProcedureFile(s, path, target, env, fuel - 1)
  }
}
