/** `PipelineRuntime`: a function table that shadows a variable table, the
    private procedures of the procedure file, and the value the last run
    returned. Runtimes are records kept in a store indexed by `RuntimeId`, so
    that a closure built in one runtime (`setVar(name)`, an `expr$` callable)
    can name the runtime it writes to. The pure built-ins of the function
    table are here too. */
module Runtime {

  import opened Values

  datatype PipelineRuntime = PipelineRuntime(
    variables: map<string, Value>,
    procedures: map<Value, Value>,
    procedureResult: Value)

  /** `new PipelineRuntime(variables)`: no procedures, no result yet. */
  function NewRuntime(variables: map<string, Value>): PipelineRuntime {
    PipelineRuntime(variables, map[], Undefined)
  }

  /** The names of the function table every runtime is built with. The host
      built-ins keep only their names here; see `Evaluator.ApplyBuiltin`. */
  const FunctionNames: set<string> := {
    "identity", "not", "NUUID", "getEnvVar", "now", "log", "logJsonValue",
    "logJsonValueWithContext", "dumpObjectToJsonlFile", "dumpIterableToJsonlFile",
    "iterableToArray", "isPathExists", "rmtree", "joinPath", "format",
    "castNumber", "castString", "castBoolean", "curryGet", "isDefined",
    "parseXml", "paseJson", "setVar", "dumpVariables", "createValueMapper",
    "regexpMatch", "isNumber", "mkdirPath", "return", "zipFile",
    "loadTextFile", "overwriteFile", "appendFile", "jsonStringify",
    "curryAppendFile", "createReadStream"
  }

  /** `variables[name]`: `Undefined` for a name never set; names inherited
      from `Object.prototype` are not modelled. */
  function Variable(rt: PipelineRuntime, name: string): Value {
    if name in rt.variables then rt.variables[name] else Undefined
  }

  /** `getSymbol(name)` on the runtime `owner`: the function-table entry when
      there is one, otherwise the variable. */
  function GetSymbol(rt: PipelineRuntime, owner: RuntimeId, name: string): Value {
    if name in FunctionNames then Fn(Builtin(name, owner)) else Variable(rt, name)
  }

  /** `setVariable(name, value)`: an upsert of one variable. */
  function SetVariable(rt: PipelineRuntime, name: string, v: Value): (r: PipelineRuntime)
    ensures Variable(r, name) == v
    ensures forall k :: k != name ==> Variable(r, k) == Variable(rt, k)
    ensures r.procedures == rt.procedures && r.procedureResult == rt.procedureResult
  {
    rt.(variables := rt.variables[name := v])
  }

  /** A `setVariable` per entry, in entry order. */
  function SetVariables(rt: PipelineRuntime, es: seq<(string, Value)>): (r: PipelineRuntime)
    ensures r.procedures == rt.procedures && r.procedureResult == rt.procedureResult
    decreases |es|
  {
    if es == [] then rt else SetVariables(SetVariable(rt, es[0].0, es[0].1), es[1..])
  }

  /** The last entry for a name wins; a name no entry mentions is untouched. */
  lemma {:induction false} SetVariablesSpec(rt: PipelineRuntime, es: seq<(string, Value)>, k: string)
    ensures (forall j :: 0 <= j < |es| ==> es[j].0 != k) ==> Variable(SetVariables(rt, es), k) == Variable(rt, k)
    ensures forall i :: 0 <= i < |es| && es[i].0 == k && (forall j :: i < j < |es| ==> es[j].0 != k) ==>
      Variable(SetVariables(rt, es), k) == es[i].1
    decreases |es|
  {
    if es != [] {
      SetVariablesSpec(SetVariable(rt, es[0].0, es[0].1), es[1..], k);
      forall i | 0 <= i < |es| && es[i].0 == k && (forall j :: i < j < |es| ==> es[j].0 != k)
        ensures Variable(SetVariables(rt, es), k) == es[i].1
      {
        if i > 0 {
          assert es[1..][i - 1] == es[i];
        }
      }
    }
  }

  /** `deepCopy`: plain objects are rebuilt key by key and arrays element by
      element; every other value is returned as it is. */
  function DeepCopy(v: Value): Value {
    match v
    case Obj(es) => Obj(seq(|es|, i requires 0 <= i < |es| => (es[i].0, DeepCopy(es[i].1))))
    case Arr(items) => Arr(seq(|items|, i requires 0 <= i < |items| => DeepCopy(items[i])))
    case _ => v
  }

  /** The copy is structurally equal to the original. */
  lemma {:induction false} DeepCopyIdentity(v: Value)
    ensures DeepCopy(v) == v
  {
    match v
    case Obj(es) =>
      forall i | 0 <= i < |es| {
        DeepCopyIdentity(es[i].1);
      }
      assert DeepCopy(v).entries == es;
    case Arr(items) =>
      forall i | 0 <= i < |items| {
        DeepCopyIdentity(items[i]);
      }
      assert DeepCopy(v).items == items;
    case _ =>
  }

  /** `addPrivateProcedure({name, steps})`: stores the steps under the name,
      replacing any earlier entry. What `getProcedure` hands out afterwards is
      equal to the stored steps, for that name and no other. */
  function AddPrivateProcedure(rt: PipelineRuntime, name: Value, steps: Value): (r: PipelineRuntime)
    ensures GetProcedure(r, name) == steps
    ensures forall n :: n != name ==> GetProcedure(r, n) == GetProcedure(rt, n)
    ensures r.variables == rt.variables && r.procedureResult == rt.procedureResult
  {
    DeepCopyIdentity(steps);
    rt.(procedures := rt.procedures[name := steps])
  }

  /** `getProcedure(name)`: a copy of the stored steps, `Undefined` for an
      unknown name. */
  function GetProcedure(rt: PipelineRuntime, name: Value): (r: Value)
    ensures name !in rt.procedures ==> r == Undefined
    ensures name in rt.procedures ==> r == rt.procedures[name]
  {
    if name in rt.procedures then
      DeepCopyIdentity(rt.procedures[name]);
      DeepCopy(rt.procedures[name])
    else DeepCopy(Undefined)
  }

  /** Getting a symbol that names a built-in never sees the variable of the
      same name: function names shadow variables. */
  lemma FunctionNamesShadow(rt: PipelineRuntime, owner: RuntimeId, name: string, v: Value)
    requires name in FunctionNames
    ensures GetSymbol(SetVariable(rt, name, v), owner, name) == GetSymbol(rt, owner, name) == Fn(Builtin(name, owner))
  {
  }

  /** Any other name reads back the value last set. */
  lemma SetThenGetSymbol(rt: PipelineRuntime, owner: RuntimeId, name: string, v: Value)
    requires name !in FunctionNames
    ensures GetSymbol(SetVariable(rt, name, v), owner, name) == v
  {
  }

  // ---------------------------------------------------------------------------
  // The store of runtimes

  type Store = seq<PipelineRuntime>

  /** The runtime `id`; an id outside the store reads as an empty runtime. */
  function RuntimeOf(st: Store, id: RuntimeId): PipelineRuntime {
    if id < |st| then st[id] else NewRuntime(map[])
  }

  /** `setVariable` on the runtime `id`; nothing happens outside the store. */
  function SetVar(st: Store, id: RuntimeId, name: string, v: Value): (r: Store)
    ensures |r| == |st|
    ensures id < |st| ==> Variable(r[id], name) == v
    ensures forall j :: 0 <= j < |st| && j != id ==> r[j] == st[j]
    ensures forall k :: k != name ==> Variable(RuntimeOf(r, id), k) == Variable(RuntimeOf(st, id), k)
    ensures SameShape(st, r)
  {
    if id < |st| then st[id := SetVariable(st[id], name, v)] else st
  }

  /** Only variables differ: the same runtimes, with the same procedures and
      results. Evaluating an expression keeps this shape. */
  predicate SameShape(st: Store, st': Store) {
    |st'| == |st| &&
    forall i :: 0 <= i < |st| ==>
      st'[i].procedures == st[i].procedures && st'[i].procedureResult == st[i].procedureResult
  }

  // ---------------------------------------------------------------------------
  // Pure built-ins

  /** `notValue(v)` is `!v`. */
  function NotValue(v: Value): (r: Value)
    ensures r == Bool(!Truthy(v))
    ensures Truthy(r) <==> !Truthy(v)
  {
    Bool(!Truthy(v))
  }

  /** `exitProcedure(result)`: never returns, raises `exit_procedure`
      carrying the value. */
  function ExitWith(result: Value): (o: Outcome)
    ensures o.Throw? && o.error.ExitProcedure? && o.error.returnedValue == result
  {
    Throw(ExitProcedure(result))
  }

  /** `mapping[i]` on an argument list: `Undefined` past the end. */
  function Arg(args: seq<Value>, i: nat): Value {
    if i < |args| then args[i] else Undefined
  }

  /** `new Map(mapping)`: absent gives an empty map; an array of entry
      objects gives their `[0]`/`[1]` pairs in order; an entry that is not an
      object, or a mapping that is not iterable, raises a TypeError. */
  function MapperPairs(mapping: Value): (r: Result<seq<(Value, Value)>>)
    ensures mapping.Arr? && r.Good? ==> |r.value| == |mapping.items|
  {
    match mapping
    case Undefined => Good([])
    case Null => Good([])
    case Str(s) => if s == "" then Good([]) else Err(TypeError("Iterator value is not an entry object"))
    case Arr(items) => EntryPairs(items)
    case _ => Err(TypeError("object is not iterable"))
  }

  function EntryPairs(items: seq<Value>): (r: Result<seq<(Value, Value)>>)
    ensures r.Good? ==> |r.value| == |items|
    ensures r.Good? ==> forall i :: 0 <= i < |items| && items[i].Arr? ==>
      r.value[i] == (Arg(items[i].items, 0), Arg(items[i].items, 1))
  {
    if items == [] then Good([])
    else
      var head := match items[0]
        case Arr(xs) => Good((Arg(xs, 0), Arg(xs, 1)))
        case Obj(es) => Good((Lookup(es, "0"), Lookup(es, "1")))
        case Fn(_) => Good((Undefined, Undefined))
        case _ => Err(TypeError("Iterator value is not an entry object"));
      if head.Err? then Err(head.error)
      else match EntryPairs(items[1..])
        case Err(e) => Err(e)
        case Good(rest) => Good([head.value] + rest)
  }

  /** The closure of `createValueMapper`: `map.has(key) ? map.get(key) :
      defaultValue`. A later pair overwrites an earlier one with the same key,
      as `Map` construction does, so the last pair for the key wins. */
  function MapperLookup(pairs: seq<(Value, Value)>, key: Value, fallback: Value): (v: Value)
    ensures (forall i :: 0 <= i < |pairs| ==> pairs[i].0 != key) ==> v == fallback
    ensures (exists i :: 0 <= i < |pairs| && pairs[i].0 == key) ==>
      exists i :: 0 <= i < |pairs| && pairs[i] == (key, v) &&
        forall j :: i < j < |pairs| ==> pairs[j].0 != key
    decreases |pairs|
  {
    if pairs == [] then fallback
    else if pairs[|pairs| - 1].0 == key then pairs[|pairs| - 1].1
    else MapperLookup(pairs[..|pairs| - 1], key, fallback)
  }
}
