/** `ModuleLoader`: a module is a list of nodes read against a transition
    table. Each module definition lists transitions, pairs of a candidate
    enumeration and the definition to continue with. Starting from the
    definition `root`, every node of the module is offered to each
    transition of the current definition in turn; a transition whose
    candidates recognise the node loads it (it must load without errors),
    keeps the component and makes its target the current definition. The
    walk over a node's transitions does not stop at a match, so a node is
    accepted only when the last transition tried matched it.

    The component schema and the YAML schema carry the same loader; they
    differ in their messages and in how the next definition is found: the
    YAML loader's `refModule(id)` throws for an unknown id when it is
    called, while the component schema's continuation yields `undefined`,
    which only fails when the following node reads its transitions. A
    continuation is modelled by the id of the definition it returns, looked
    up when it is called. */
module ModuleLoading {

  import opened Values
  import opened AstNodes
  import opened Schema
  import opened SchemaUtils
  import opened NodeSchema
  import opened NodeSchemaLoader

  /** Which of the two loaders. */
  datatype Dialect = ComponentSchema | YamlSchema

  /** `TransitionPair`: the candidates, and the id of the definition the
      continuation returns. */
  datatype Transition = Transition(candidates: Enumerator, next: string)

  datatype ModuleDefinition = ModuleDefinition(id: string, transitions: seq<Transition>)

  /** Builds a definition's transitions from the schema (`transitionBuilder`). */
  type TransitionBuilder = SchemaState -> seq<Transition>

  const StartDefinitionId := "root"

  /** `throw new Error()` in the component schema; the YAML loader's messages. */
  function RootMissing(d: Dialect): Exception {
    match d
    case ComponentSchema => JsError("")
    case YamlSchema => JsError("Root definition " + StartDefinitionId + " was not found.")
  }

  function NoMatch(d: Dialect): Exception {
    match d
    case ComponentSchema => JsError("")
    case YamlSchema => JsError("No matching node")
  }

  /** `${errors}` of an array of plain objects. */
  function ErrorsText(errors: seq<MatchingError>): (r: string)
    ensures |r| == if errors == [] then 0 else 16 * |errors| - 1
    decreases |errors|
  {
    if errors == [] then ""
    else if |errors| == 1 then "[object Object]"
    else "[object Object]," + ErrorsText(errors[1..])
  }

  function ComponentError(d: Dialect, errors: seq<MatchingError>): Exception {
    match d
    case ComponentSchema => JsError("")
    case YamlSchema => JsError("Component containt error " + ErrorsText(errors))
  }

  /** `refModule(id)()`: the definition registered under `id` when it is
      called. */
  function RefModule(defs: map<string, ModuleDefinition>, id: string): (r: Try<ModuleDefinition>)
    ensures r.Failure? <==> id !in defs
    ensures r.Success? ==> r.value == defs[id]
    ensures r.Failure? ==> r.exception == JsError("Module " + id + " dot not exist")
  {
    if id !in defs then Failure(JsError("Module " + id + " dot not exist")) else Success(defs[id])
  }

  /** Calling a continuation: `undefined` for an unknown id in the component
      schema, the error of `refModule` in the YAML schema. */
  function Continue(d: Dialect, defs: map<string, ModuleDefinition>, id: string): (r: Try<Option<ModuleDefinition>>)
    ensures d.ComponentSchema? ==> r.Success? && (r.value.Some? <==> id in defs)
    ensures d.YamlSchema? ==> (r.Success? <==> id in defs) && (r.Success? ==> r.value.Some?)
    ensures r.Success? && r.value.Some? ==> r.value.value == defs[id]
  {
    match d
    case ComponentSchema => Success(if id in defs then Some(defs[id]) else None)
    case YamlSchema =>
      match RefModule(defs, id)
      case Failure(e) => Failure(e)
      case Success(def) => Success(Some(def))
  }

  /** The loop state while one node goes through the transitions: the
      current definition, the node's last match and the components so far. */
  datatype Walk = Walk(definition: Option<ModuleDefinition>, matched: Option<AstNode>, components: seq<Component>)

  /** The inner loop of `loadModule` over `transitions` for one node. */
  function RunTransitions(d: Dialect, st: SchemaState, defs: map<string, ModuleDefinition>, transitions: seq<Transition>,
                          node: Value, w: Walk): Try<Walk>
    requires Valid(st)
    decreases |transitions|
  {
    if transitions == [] then Success(w)
    else
      var t := transitions[0];
      match FindMatchingNodeOrUndefined(st, node, t.candidates)
      case Failure(e) => Failure(e)
      case Success(None) => RunTransitions(d, st, defs, transitions[1..], node, w.(matched := None))
      case Success(Some(n)) =>
        match Load(st, n, node, CreateAstContext(StartDefinitionId))
        case Failure(e) => Failure(e)
        case Success(loaded) =>
          if |loaded.errors| > 0 then Failure(ComponentError(d, loaded.errors))
          else
            match Continue(d, defs, t.next)
            case Failure(e) => Failure(e)
            case Success(next) => RunTransitions(d, st, defs, transitions[1..], node, Walk(next, Some(n), w.components + [loaded.component]))
  }

  /** The outer loop of `loadModule`, from the current definition on. */
  function LoadNodes(d: Dialect, st: SchemaState, defs: map<string, ModuleDefinition>, current: Option<ModuleDefinition>,
                     nodes: seq<Value>, components: seq<Component>): Try<seq<Component>>
    requires Valid(st)
    decreases |nodes|
  {
    if nodes == [] then Success(components)
    else
      match current
      case None => Failure(JsTypeError("Cannot read properties of undefined (reading 'transitions')"))
      case Some(def) =>
        match RunTransitions(d, st, defs, def.transitions, nodes[0], Walk(current, None, components))
        case Failure(e) => Failure(e)
        case Success(w) =>
          if w.matched.None? then Failure(NoMatch(d))
          else LoadNodes(d, st, defs, w.definition, nodes[1..], w.components)
  }

  /** `loadModule(moduleRootNode)`. */
  function LoadModule(d: Dialect, st: SchemaState, defs: map<string, ModuleDefinition>, nodes: seq<Value>): Try<seq<Component>>
    requires Valid(st)
  {
    if StartDefinitionId !in defs then Failure(RootMissing(d))
    else LoadNodes(d, st, defs, Some(defs[StartDefinitionId]), nodes, [])
  }

  /** The definitions after `addDefinition` of each entry in turn. */
  function Registered(defs: map<string, ModuleDefinition>, entries: seq<(string, TransitionBuilder)>, st: SchemaState): map<string, ModuleDefinition>
    decreases |entries|
  {
    if entries == [] then defs
    else Registered(defs[entries[0].0 := ModuleDefinition(entries[0].0, entries[0].1(st))], entries[1..], st)
  }

  class ModuleLoader {
    const dialect: Dialect
    var definitions: map<string, ModuleDefinition>
    const schema: Schema

    /** The schema the loader reads is consistent. */
    ghost predicate Ready()
      reads this, schema
    {
      Valid(schema.State())
    }

    /** `new ModuleLoader(astNodeDetails)`: a schema built from the node
        details and no definitions. */
    constructor (dialect: Dialect, astNodeDetails: seq<(string, NodeDetails)>)
      ensures this.dialect == dialect && definitions == map[]
      ensures fresh(schema) && schema.State() == Built(astNodeDetails)
      ensures Ready()
    {
      this.dialect := dialect;
      definitions := map[];
      schema := new Schema(astNodeDetails);
      BuiltValid(astNodeDetails);
    }

    /** `addDefinition(id, transitionBuilder)`: replaces any definition of
        that id; the transitions are built from the schema right away. */
    method AddDefinition(id: string, build: TransitionBuilder)
      modifies this
      ensures definitions == old(definitions)[id := ModuleDefinition(id, build(schema.State()))]
    {
      definitions := definitions[id := ModuleDefinition(id, build(schema.State()))];
    }

    /** `addDefinitions(moduleDefinition)`: each entry in dictionary order. */
    method AddDefinitions(entries: seq<(string, TransitionBuilder)>)
      modifies this
      ensures definitions == Registered(old(definitions), entries, schema.State())
    {
      var i := 0;
      while i < |entries|
        invariant 0 <= i <= |entries|
        invariant Registered(definitions, entries[i..], schema.State()) == Registered(old(definitions), entries, schema.State())
      {
        assert entries[i..][1..] == entries[i + 1..];
        AddDefinition(entries[i].0, entries[i].1);
        i := i + 1;
      }
    }

    /** `loadModule(moduleRootNode)`. */
    method LoadModuleRun(moduleRootNode: seq<Value>) returns (r: Try<seq<Component>>)
      requires Ready()
      ensures r == LoadModule(dialect, schema.State(), definitions, moduleRootNode)
    {
      var st := schema.State();
      if StartDefinitionId !in definitions {
        return Failure(RootMissing(dialect));
      }
      var definition: Option<ModuleDefinition> := Some(definitions[StartDefinitionId]);
      var components: seq<Component> := [];
      var i := 0;
      while i < |moduleRootNode|
        invariant 0 <= i <= |moduleRootNode|
        invariant LoadNodes(dialect, st, definitions, definition, moduleRootNode[i..], components)
          == LoadModule(dialect, st, definitions, moduleRootNode)
      {
        var node := moduleRootNode[i];
        assert moduleRootNode[i..][1..] == moduleRootNode[i + 1..];
        if definition.None? {
          return Failure(JsTypeError("Cannot read properties of undefined (reading 'transitions')"));
        }
        var transitions := definition.value.transitions;
        var walk := RunNode(st, transitions, node, Walk(definition, None, components));
        if walk.Failure? {
          return Failure(walk.exception);
        }
        if walk.value.matched.None? {
          return Failure(NoMatch(dialect));
        }
        definition, components := walk.value.definition, walk.value.components;
        i := i + 1;
      }
      r := Success(components);
    }

    /** The inner loop of `loadModule`: every transition of the definition
        current when the node was reached, with no `break`. */
    method RunNode(st: SchemaState, transitions: seq<Transition>, node: Value, start: Walk) returns (r: Try<Walk>)
      requires Valid(st)
      ensures r == RunTransitions(dialect, st, definitions, transitions, node, start)
    {
      var w := start;
      var j := 0;
      while j < |transitions|
        invariant 0 <= j <= |transitions|
        invariant RunTransitions(dialect, st, definitions, transitions[j..], node, w)
          == RunTransitions(dialect, st, definitions, transitions, node, start)
      {
        var t := transitions[j];
        assert transitions[j..][1..] == transitions[j + 1..];
        var found := FindMatchingNodeOrUndefined(st, node, t.candidates);
        if found.Failure? {
          return Failure(found.exception);
        }
        if found.value.None? {
          w := w.(matched := None);
        } else {
          var loaded, thrown := LoadNode(st, found.value.value, node, CreateAstContext(StartDefinitionId));
          if thrown.Some? {
            return Failure(thrown.value);
          }
          if |loaded.errors| > 0 {
            return Failure(ComponentError(dialect, loaded.errors));
          }
          var next := Continue(dialect, definitions, t.next);
          if next.Failure? {
            return Failure(next.exception);
          }
          w := Walk(next.value, found.value, w.components + [loaded.component]);
        }
        j := j + 1;
      }
      r := Success(w);
    }
  }
}
