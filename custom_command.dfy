/** The `custom-command` action (`CustomCommandActionHandler.run`) as a
    function of the store: every assert is checked first, then `cmd`, then
    each of `assigns`. `Engine.RunCustomCommand` is the method with its
    loops, proved equal to `Run` here. */
module CustomCommand {

  import opened Values
  import opened Runtime
  import opened Evaluator

  datatype Run = Run(error: Option<Error>, store: Store)

  /** The first assert, in order, whose condition is not exactly `true`
      raises `assertion_failed` with its message. */
  function FirstFailure(asserts: seq<Value>): (r: Option<Error>)
    ensures r.None? <==> forall i :: 0 <= i < |asserts| ==> Field(asserts[i], "condition") == Good(Bool(true))
    ensures r.Some? && r.value.AssertionFailed? ==>
      exists i :: 0 <= i < |asserts| && Field(asserts[i], "condition").Good? &&
        Field(asserts[i], "condition").value != Bool(true) &&
        r.value.message == Prop(asserts[i], "message") &&
        forall j :: 0 <= j < i ==> Field(asserts[j], "condition") == Good(Bool(true))
  {
    if asserts == [] then None
    else
      var condition := Field(asserts[0], "condition");
      if condition.Err? then Some(condition.error)
      else if condition.value != Bool(true) then Some(AssertionFailed(Prop(asserts[0], "message")))
      else
        FirstFailure(asserts[1..])
  }

  /** The assert phase: absent asserts pass; asserts that are not iterable
      raise a TypeError. */
  function CheckAsserts(asserts: Value): Option<Error> {
    if asserts == Undefined then None
    else
      match Iterate(asserts)
      case Err(e) => Some(e)
      case Good(items) => FirstFailure(items)
  }

  /** `[].concat(x)`: an array contributes its elements, anything else
      itself. */
  function Spread(x: Value): seq<Value> {
    if x.Arr? then x.items else [x]
  }

  /** The command list: `cmd` when defined, then the `assigns`. */
  function Commands(action: Value): seq<Value> {
    var cmd := Prop(action, "cmd");
    var assigns := Prop(action, "assigns");
    (if cmd != Undefined then [cmd] else []) + (if assigns != Undefined then Spread(assigns) else [])
  }

  /** One variable per entry, in entry order: a function value is called
      with no arguments and its result stored, any other value is stored as
      it is. */
  function AssignEntries(st: Store, es: seq<(string, Value)>, rid: RuntimeId, host: Host, fuel: nat): (r: Run)
    ensures SameShape(st, r.store)
    decreases |es|
  {
    if es == [] then Run(None, st)
    else
      var (name, value) := es[0];
      if value.Fn? then
        var call := Apply(st, value, [], host, fuel);
        (match call.outcome
         case Throw(e) => Run(Some(e), call.store)
         case Ok(x) => AssignEntries(SetVar(call.store, rid, name, x), es[1..], rid, host, fuel))
      else AssignEntries(SetVar(st, rid, name, value), es[1..], rid, host, fuel)
  }

  /** The command loop: a function is called with no arguments and its
      result dropped; a plain object assigns its entries; anything else is
      ignored. */
  function RunCommands(st: Store, commands: seq<Value>, rid: RuntimeId, host: Host, fuel: nat): (r: Run)
    ensures SameShape(st, r.store)
    decreases |commands|
  {
    if commands == [] then Run(None, st)
    else
      var step := commands[0];
      if step.Fn? then
        (var call := Apply(st, step, [], host, fuel);
         if call.outcome.Throw? then Run(Some(call.outcome.error), call.store)
         else RunCommands(call.store, commands[1..], rid, host, fuel))
      else if step.Obj? then
        (var assignment := AssignEntries(st, step.entries, rid, host, fuel);
         if assignment.error.Some? then assignment
         else RunCommands(assignment.store, commands[1..], rid, host, fuel))
      else RunCommands(st, commands[1..], rid, host, fuel)
  }

  /** `run(action, runtime)`. */
  function RunCustomCommand(st: Store, action: Value, rid: RuntimeId, host: Host, fuel: nat): (r: Run)
    ensures SameShape(st, r.store)
    ensures CheckAsserts(Prop(action, "asserts")).Some? ==> r == Run(CheckAsserts(Prop(action, "asserts")), st)
  {
    match CheckAsserts(Prop(action, "asserts"))
    case Some(e) => Run(Some(e), st)
    case None => RunCommands(st, Commands(action), rid, host, fuel)
  }

  // ---------------------------------------------------------------------------
  // Properties

  /** No command is a function and no assignment value is a function. */
  predicate NoCallables(commands: seq<Value>) {
    forall i :: 0 <= i < |commands| ==>
      !commands[i].Fn? &&
      (commands[i].Obj? ==> forall j :: 0 <= j < |commands[i].entries| ==> !commands[i].entries[j].1.Fn?)
  }

  /** The variables after plain assignments: each entry of each plain-object
      command upserted in order. */
  function Assigned(rt: PipelineRuntime, commands: seq<Value>): PipelineRuntime
    decreases |commands|
  {
    if commands == [] then rt
    else if commands[0].Obj? then Assigned(SetVariables(rt, commands[0].entries), commands[1..])
    else Assigned(rt, commands[1..])
  }

  lemma {:induction false} AssignEntriesPlain(st: Store, es: seq<(string, Value)>, rid: RuntimeId, host: Host, fuel: nat)
    requires rid < |st|
    requires forall j :: 0 <= j < |es| ==> !es[j].1.Fn?
    ensures AssignEntries(st, es, rid, host, fuel) == Run(None, st[rid := SetVariables(st[rid], es)])
    decreases |es|
  {
    if es == [] {
      assert st[rid := st[rid]] == st;
    } else {
      var st1 := SetVar(st, rid, es[0].0, es[0].1);
      assert st1 == st[rid := SetVariable(st[rid], es[0].0, es[0].1)];
      AssignEntriesPlain(st1, es[1..], rid, host, fuel);
      assert st1[rid := SetVariables(st1[rid], es[1..])] == st[rid := SetVariables(st[rid], es)];
    }
  }

  /** Without callables the commands are plain upserts on the runtime, in
      order, and cannot fail. */
  lemma {:induction false} RunCommandsPlain(st: Store, commands: seq<Value>, rid: RuntimeId, host: Host, fuel: nat)
    requires rid < |st| && NoCallables(commands)
    ensures RunCommands(st, commands, rid, host, fuel) == Run(None, st[rid := Assigned(st[rid], commands)])
    decreases |commands|
  {
    if commands == [] {
      assert st[rid := st[rid]] == st;
    } else {
      assert NoCallables(commands[1..]);
      if commands[0].Obj? {
        AssignEntriesPlain(st, commands[0].entries, rid, host, fuel);
        var st1 := st[rid := SetVariables(st[rid], commands[0].entries)];
        RunCommandsPlain(st1, commands[1..], rid, host, fuel);
        assert st1[rid := Assigned(st1[rid], commands[1..])] == st[rid := Assigned(st[rid], commands)];
      } else {
        RunCommandsPlain(st, commands[1..], rid, host, fuel);
      }
    }
  }

  /** An action with no asserts, no `cmd` and no `assigns` changes nothing. */
  lemma EmptyCommand(st: Store, action: Value, rid: RuntimeId, host: Host, fuel: nat)
    requires Prop(action, "asserts") == Undefined && Prop(action, "cmd") == Undefined && Prop(action, "assigns") == Undefined
    ensures RunCustomCommand(st, action, rid, host, fuel) == Run(None, st)
  {
  }

  /** A failing assert stops the action before any command runs, even when
      the commands would have assignment or called something. */
  lemma AssertsBeforeCommands(st: Store, message: Value, cmd: Value, rid: RuntimeId, host: Host, fuel: nat)
    ensures RunCustomCommand(st, Obj([("asserts", Arr([Obj([("condition", Bool(false)), ("message", message)])])), ("cmd", cmd)]),
                             rid, host, fuel)
         == Run(Some(AssertionFailed(message)), st)
  {
    var a := Obj([("condition", Bool(false)), ("message", message)]);
    assert a.entries[1..] == [("message", message)];
    assert "condition"[0] != "message"[0];
    assert Lookup(a.entries, "message") == Lookup([("message", message)], "message") == message;
    assert Prop(a, "message") == message;
    assert FirstFailure([a]) == Some(AssertionFailed(message));
  }

  /** Only exactly `true` passes: a truthy condition such as `1` fails. */
  lemma TruthyIsNotTrue(message: Value)
    ensures FirstFailure([Obj([("condition", Num(1)), ("message", message)])]) == Some(AssertionFailed(message))
  {
    var a := Obj([("condition", Num(1)), ("message", message)]);
    assert a.entries[1..] == [("message", message)];
    assert "condition"[0] != "message"[0];
    assert Lookup(a.entries, "message") == Lookup([("message", message)], "message") == message;
    assert Prop(a, "message") == message;
  }
}
