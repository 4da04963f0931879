/** What `loadModule` promises about the components it returns and about
    when it throws. */
module ModuleLoadingLaws {

  import opened Values
  import opened AstNodes
  import opened Schema
  import opened SchemaUtils
  import opened NodeSchema
  import opened ModuleLoading

  /** The ids `addDefinitions` registers. */
  function Ids(entries: seq<(string, TransitionBuilder)>): set<string>
    decreases |entries|
  {
    if entries == [] then {} else {entries[0].0} + Ids(entries[1..])
  }

  /** Every definition is filed under its own id. */
  ghost predicate FiledById(defs: map<string, ModuleDefinition>) {
    forall id :: id in defs ==> defs[id].id == id
  }

  /** `addDefinitions` adds exactly the ids of its entries and files each
      definition under its own id. */
  lemma {:induction false} RegisteredIds(defs: map<string, ModuleDefinition>, entries: seq<(string, TransitionBuilder)>, st: SchemaState)
    ensures Registered(defs, entries, st).Keys == defs.Keys + Ids(entries)
    ensures FiledById(defs) ==> FiledById(Registered(defs, entries, st))
    decreases |entries|
  {
    if entries != [] {
      var next := defs[entries[0].0 := ModuleDefinition(entries[0].0, entries[0].1(st))];
      RegisteredIds(next, entries[1..], st);
      assert next.Keys == defs.Keys + {entries[0].0};
    }
  }

  /** The walk over one node's transitions only appends components, at most
      one per transition, and at least one when its last transition matched. */
  lemma {:induction false} RunTransitionsGrows(d: Dialect, st: SchemaState, defs: map<string, ModuleDefinition>,
                                               ts: seq<Transition>, node: Value, w: Walk, w': Walk)
    requires Valid(st)
    requires RunTransitions(d, st, defs, ts, node, w) == Success(w')
    ensures |w.components| <= |w'.components| <= |w.components| + |ts|
    ensures w'.components[..|w.components|] == w.components
    ensures ts != [] && w'.matched.Some? ==> |w'.components| > |w.components|
    decreases |ts|
  {
    if ts != [] {
      var t := ts[0];
      match FindMatchingNodeOrUndefined(st, node, t.candidates)
      case Success(None) =>
        RunTransitionsGrows(d, st, defs, ts[1..], node, w.(matched := None), w');
        if ts[1..] == [] {
          assert w' == w.(matched := None);
        }
      case Success(Some(n)) =>
        var loaded := Load(st, n, node, CreateAstContext(StartDefinitionId)).value;
        var next := Continue(d, defs, t.next).value;
        var u := Walk(next, Some(n), w.components + [loaded.component]);
        RunTransitionsGrows(d, st, defs, ts[1..], node, u, w');
        calc {
          w'.components[..|w.components|];
          w'.components[..|u.components|][..|w.components|];
          u.components[..|w.components|];
          w.components;
        }
    }
  }

  /** A node is left unmatched exactly when the last transition of the
      definition finds no candidate for it: an earlier match does not count. */
  lemma {:induction false} LastTransitionDecides(d: Dialect, st: SchemaState, defs: map<string, ModuleDefinition>,
                                                 ts: seq<Transition>, node: Value, w: Walk, w': Walk)
    requires Valid(st) && ts != []
    requires RunTransitions(d, st, defs, ts, node, w) == Success(w')
    ensures w'.matched.None? <==> FindMatchingNodeOrUndefined(st, node, ts[|ts| - 1].candidates) == Success(None)
    decreases |ts|
  {
    var t := ts[0];
    match FindMatchingNodeOrUndefined(st, node, t.candidates)
    case Success(None) =>
      if ts[1..] != [] {
        LastTransitionDecides(d, st, defs, ts[1..], node, w.(matched := None), w');
        assert ts[1..][|ts[1..]| - 1] == ts[|ts| - 1];
      }
    case Success(Some(n)) =>
      var loaded := Load(st, n, node, CreateAstContext(StartDefinitionId)).value;
      var next := Continue(d, defs, t.next).value;
      var u := Walk(next, Some(n), w.components + [loaded.component]);
      if ts[1..] != [] {
        LastTransitionDecides(d, st, defs, ts[1..], node, u, w');
        assert ts[1..][|ts[1..]| - 1] == ts[|ts| - 1];
      }
  }

  /** A node whose last transition finds no candidate makes the module fail,
      whatever the transitions before it matched. */
  lemma EarlierMatchDiscarded(d: Dialect, st: SchemaState, defs: map<string, ModuleDefinition>, def: ModuleDefinition,
                              node: Value, rest: seq<Value>, components: seq<Component>)
    requires Valid(st) && def.transitions != []
    requires FindMatchingNodeOrUndefined(st, node, def.transitions[|def.transitions| - 1].candidates) == Success(None)
    ensures LoadNodes(d, st, defs, Some(def), [node] + rest, components).Failure?
    ensures RunTransitions(d, st, defs, def.transitions, node, Walk(Some(def), None, components)).Success?
      ==> LoadNodes(d, st, defs, Some(def), [node] + rest, components) == Failure(NoMatch(d))
  {
    var nodes := [node] + rest;
    assert nodes[0] == node && nodes[1..] == rest;
    var run := RunTransitions(d, st, defs, def.transitions, node, Walk(Some(def), None, components));
    if run.Success? {
      LastTransitionDecides(d, st, defs, def.transitions, node, Walk(Some(def), None, components), run.value);
    }
  }

  /** The components of a loaded module extend those already collected,
      with at least one per node. */
  lemma {:induction false} LoadNodesGrows(d: Dialect, st: SchemaState, defs: map<string, ModuleDefinition>,
                                          current: Option<ModuleDefinition>, nodes: seq<Value>,
                                          components: seq<Component>, cs: seq<Component>)
    requires Valid(st)
    requires LoadNodes(d, st, defs, current, nodes, components) == Success(cs)
    ensures |cs| >= |components| + |nodes|
    ensures cs[..|components|] == components
    decreases |nodes|
  {
    if nodes != [] {
      var def := current.value;
      var w := RunTransitions(d, st, defs, def.transitions, nodes[0], Walk(current, None, components)).value;
      RunTransitionsGrows(d, st, defs, def.transitions, nodes[0], Walk(current, None, components), w);
      LoadNodesGrows(d, st, defs, w.definition, nodes[1..], w.components, cs);
      calc {
        cs[..|components|];
        cs[..|w.components|][..|components|];
        w.components[..|components|];
        components;
      }
    }
  }

  /** `loadModule` returns at least one component per node of the module. */
  lemma LoadModuleCovers(d: Dialect, st: SchemaState, defs: map<string, ModuleDefinition>, nodes: seq<Value>)
    requires Valid(st)
    ensures LoadModule(d, st, defs, nodes).Success? ==> |LoadModule(d, st, defs, nodes).value| >= |nodes|
    ensures StartDefinitionId !in defs ==> LoadModule(d, st, defs, nodes) == Failure(RootMissing(d))
    ensures StartDefinitionId in defs ==> LoadModule(d, st, defs, []) == Success([])
  {
    if LoadModule(d, st, defs, nodes).Success? {
      LoadNodesGrows(d, st, defs, Some(defs[StartDefinitionId]), nodes, [], LoadModule(d, st, defs, nodes).value);
    }
  }

  /** Every definition has exactly one transition. */
  ghost predicate OneTransitionEach(defs: map<string, ModuleDefinition>) {
    forall id :: id in defs ==> |defs[id].transitions| == 1
  }

  /** With one transition per definition, a node accepted by its transition
      adds exactly one component, and the walk continues with a definition
      of the table or with none. */
  lemma SingleTransitionStep(d: Dialect, st: SchemaState, defs: map<string, ModuleDefinition>, t: Transition,
                             node: Value, w: Walk, w': Walk)
    requires Valid(st)
    requires RunTransitions(d, st, defs, [t], node, w) == Success(w') && w'.matched.Some?
    ensures |w'.components| == |w.components| + 1
    ensures w'.definition.None? || (t.next in defs && w'.definition == Some(defs[t.next]))
  {
    assert [t][1..] == [];
    assert [t][0] == t;
  }

  /** A module read with one transition per definition yields exactly one
      component per node. */
  lemma {:induction false} LoadNodesOnePerNode(d: Dialect, st: SchemaState, defs: map<string, ModuleDefinition>,
                                               current: Option<ModuleDefinition>, nodes: seq<Value>,
                                               components: seq<Component>, cs: seq<Component>)
    requires Valid(st) && OneTransitionEach(defs)
    requires current.Some? ==> |current.value.transitions| == 1
    requires LoadNodes(d, st, defs, current, nodes, components) == Success(cs)
    ensures |cs| == |components| + |nodes|
    decreases |nodes|
  {
    if nodes != [] {
      var def := current.value;
      var t := def.transitions[0];
      assert def.transitions == [t];
      var w := RunTransitions(d, st, defs, def.transitions, nodes[0], Walk(current, None, components)).value;
      SingleTransitionStep(d, st, defs, t, nodes[0], Walk(current, None, components), w);
      LoadNodesOnePerNode(d, st, defs, w.definition, nodes[1..], w.components, cs);
    }
  }

  /** A transition whose target is not registered: the YAML loader throws as
      soon as the node matches, while the component schema loader carries on
      with no definition and only fails if another node follows. */
  lemma UnknownNextDefinition(st: SchemaState, defs: map<string, ModuleDefinition>, def: ModuleDefinition,
                              node: Value, rest: seq<Value>, n: AstNode, loaded: ComponentLoadResult)
    requires Valid(st) && |def.transitions| == 1
    requires FindMatchingNodeOrUndefined(st, node, def.transitions[0].candidates) == Success(Some(n))
    requires Load(st, n, node, CreateAstContext(StartDefinitionId)) == Success(loaded) && loaded.errors == []
    requires def.transitions[0].next !in defs
    ensures LoadNodes(YamlSchema, st, defs, Some(def), [node] + rest, [])
      == Failure(JsError("Module " + def.transitions[0].next + " dot not exist"))
    ensures rest == [] ==> LoadNodes(ComponentSchema, st, defs, Some(def), [node] + rest, []) == Success([loaded.component])
    ensures (rest != [] ==>
      LoadNodes(ComponentSchema, st, defs, Some(def), [node] + rest, [])
        == Failure(JsTypeError("Cannot read properties of undefined (reading 'transitions')")))
  {
    var t := def.transitions[0];
    assert def.transitions == [t] && [t][1..] == [];
    var nodes := [node] + rest;
    assert nodes[0] == node && nodes[1..] == rest;
    assert Continue(ComponentSchema, defs, t.next) == Success(None);
    assert [] + [loaded.component] == [loaded.component];
    assert RunTransitions(ComponentSchema, st, defs, def.transitions, node, Walk(Some(def), None, []))
      == Success(Walk(None, Some(n), [loaded.component]));
  }

  /** A matched node whose load reports errors makes the module fail with
      those errors. */
  lemma LoadErrorsThrow(d: Dialect, st: SchemaState, defs: map<string, ModuleDefinition>, ts: seq<Transition>,
                        node: Value, w: Walk, n: AstNode, loaded: ComponentLoadResult)
    requires Valid(st) && ts != []
    requires FindMatchingNodeOrUndefined(st, node, ts[0].candidates) == Success(Some(n))
    requires Load(st, n, node, CreateAstContext(StartDefinitionId)) == Success(loaded) && loaded.errors != []
    ensures RunTransitions(d, st, defs, ts, node, w) == Failure(ComponentError(d, loaded.errors))
    ensures d.YamlSchema? ==> ComponentError(d, loaded.errors).message == "Component containt error " + ErrorsText(loaded.errors)
  {
  }

  /** One transition that recognises the node, loads it without errors and
      names a registered definition: the walk moves on to that definition
      with the component appended. */
  lemma OneTransitionMatched(d: Dialect, st: SchemaState, defs: map<string, ModuleDefinition>, t: Transition,
                             node: Value, w: Walk, n: AstNode, loaded: ComponentLoadResult)
    requires Valid(st) && t.next in defs
    requires FindMatchingNodeOrUndefined(st, node, t.candidates) == Success(Some(n))
    requires Load(st, n, node, CreateAstContext(StartDefinitionId)) == Success(loaded) && loaded.errors == []
    ensures RunTransitions(d, st, defs, [t], node, w)
      == Success(Walk(Some(defs[t.next]), Some(n), w.components + [loaded.component]))
  {
    assert [t][0] == t && [t][1..] == [];
  }

  /** A node the current definition's transitions leave matched moves the
      walk on to the definition they chose. */
  lemma LoadNodesMatched(d: Dialect, st: SchemaState, defs: map<string, ModuleDefinition>, def: ModuleDefinition,
                         nodes: seq<Value>, components: seq<Component>, w: Walk)
    requires Valid(st) && nodes != []
    requires RunTransitions(d, st, defs, def.transitions, nodes[0], Walk(Some(def), None, components)) == Success(w)
    requires w.matched.Some?
    ensures LoadNodes(d, st, defs, Some(def), nodes, components) == LoadNodes(d, st, defs, w.definition, nodes[1..], w.components)
  {
  }

  /** A root definition that hands over to `module-b`, which keeps itself
      current: two nodes, each recognised and loaded without errors by the
      candidates of the definition current when it is reached, give their
      components in input order. */
  lemma ModuleSequenceInOrder(d: Dialect, st: SchemaState, defs: map<string, ModuleDefinition>,
                              first: Enumerator, second: Enumerator, x: Value, y: Value,
                              nx: AstNode, ny: AstNode, lx: ComponentLoadResult, ly: ComponentLoadResult)
    requires Valid(st)
    requires StartDefinitionId in defs && defs[StartDefinitionId].transitions == [Transition(first, "module-b")]
    requires "module-b" in defs && defs["module-b"].transitions == [Transition(second, "module-b")]
    requires FindMatchingNodeOrUndefined(st, x, first) == Success(Some(nx))
    requires Load(st, nx, x, CreateAstContext(StartDefinitionId)) == Success(lx) && lx.errors == []
    requires FindMatchingNodeOrUndefined(st, y, second) == Success(Some(ny))
    requires Load(st, ny, y, CreateAstContext(StartDefinitionId)) == Success(ly) && ly.errors == []
    ensures LoadModule(d, st, defs, [x, y]) == Success([lx.component, ly.component])
  {
    var root := defs[StartDefinitionId];
    var b := defs["module-b"];
    var w1 := Walk(Some(b), Some(nx), [] + [lx.component]);
    OneTransitionMatched(d, st, defs, Transition(first, "module-b"), x, Walk(Some(root), None, []), nx, lx);
    assert [x, y][0] == x && [x, y][1..] == [y];
    assert [] + [lx.component] == [lx.component];
    LoadNodesMatched(d, st, defs, root, [x, y], [], w1);
    LastNodeMatched(d, st, defs, b, second, y, ny, ly, [lx.component]);
    assert [lx.component] + [ly.component] == [lx.component, ly.component];
  }

  /** The last node, recognised by the one transition of a definition that
      keeps itself current, ends the walk with its component appended. */
  lemma LastNodeMatched(d: Dialect, st: SchemaState, defs: map<string, ModuleDefinition>, b: ModuleDefinition,
                        second: Enumerator, y: Value, ny: AstNode, ly: ComponentLoadResult, components: seq<Component>)
    requires Valid(st)
    requires "module-b" in defs && defs["module-b"] == b && b.transitions == [Transition(second, "module-b")]
    requires FindMatchingNodeOrUndefined(st, y, second) == Success(Some(ny))
    requires Load(st, ny, y, CreateAstContext(StartDefinitionId)) == Success(ly) && ly.errors == []
    ensures LoadNodes(d, st, defs, Some(b), [y], components) == Success(components + [ly.component])
  {
    var w2 := Walk(Some(b), Some(ny), components + [ly.component]);
    OneTransitionMatched(d, st, defs, Transition(second, "module-b"), y, Walk(Some(b), None, components), ny, ly);
    assert [y][0] == y && [y][1..] == [];
    LoadNodesMatched(d, st, defs, b, [y], components, w2);
  }
}
