/** The records of the component schema: load traces and contexts, matching
    errors, components and load results, the node kinds a schema is built
    from (with the key details of a node schema), and the exceptions a load
    can raise. Dictionaries are association lists kept in insertion order. */
module AstNodes {

  import opened Values

  /** One step of the path from the module root to the node being loaded. */
  datatype Trace = Trace(key: string)

  /** Where in the document a node is being loaded. */
  datatype AstContext = AstContext(traces: seq<Trace>)

  datatype MatchingError = MatchingError(error: string, context: AstContext)

  /** A loaded component. */
  datatype Component = Component(
    typeName: string,
    decorators: seq<(string, Value)>,
    attributes: seq<(string, Value)>,
    properties: seq<(string, Component)>,
    children: seq<(string, seq<Component>)>)

  datatype ComponentLoadResult = ComponentLoadResult(component: Component, errors: seq<MatchingError>)

  /** `new Error(message)`, and a TypeError raised by the host. */
  datatype Exception = JsError(message: string) | JsTypeError(message: string)

  /** A value, or the exception that aborted computing it. */
  datatype Try<+T> = Success(value: T) | Failure(exception: Exception)

  /** Where a key's value goes in the component: `'attribute' | 'child' | 'property'`. */
  datatype Bucket = Attribute | Child | Property

  type NodeValidator = (Value, AstContext) -> seq<MatchingError>

  /** The candidate enumerations a key or a transition offers. The schema's
      `refIds`, `refTags` and `refEverything` are resolved against the schema
      each time they are enumerated; `Yields` is a fixed generator. */
  datatype Enumerator =
    | RefIds(ids: seq<string>)
    | RefTags(tags: seq<string>)
    | RefEverything
    | Yields(nodes: seq<AstNode>)

  /** `ObjectNodeKeyDetails`: a single target is the one-element list. */
  datatype KeyDetail = KeyDetail(
    target: seq<Bucket>,
    child: Option<Enumerator>,
    property: Option<Enumerator>,
    validate: Option<NodeValidator>,
    optional: bool)

  /** How a node schema recognises the values it loads. */
  datatype Identity =
      /** `TaggedNode`: the value under `identityKey` is `identityValue` */
    | Tagged(identityKey: string, identityValue: string)
      /** `InilineNode`: the only key is `identityValue` */
    | Inline(identityValue: string)
      /** `SucessorObjectNode`: any object */
    | AnyObject

  /** The `AstNode` implementations: a node schema over its keys, or an
      `ErrorNode` that matches everything and always reports its message. */
  datatype AstNode =
    | NodeSchema(typeName: string, keys: seq<(string, KeyDetail)>, identity: Identity)
    | ErrorNode(message: string)

  /** The keys of a dictionary, in order (`Object.keys`). */
  function Keys<T>(entries: seq<(string, T)>): (r: seq<string>)
    ensures |r| == |entries|
    decreases |entries|
  {
    if entries == [] then [] else [entries[0].0] + Keys(entries[1..])
  }

  /** A JavaScript object never holds the same key twice. */
  predicate UniqueKeys<T>(entries: seq<(string, T)>) {
    forall i, j :: 0 <= i < j < |entries| ==> entries[i].0 != entries[j].0
  }

  /** The `i`-th key of a dictionary is the key of its `i`-th entry. */
  lemma {:induction false} KeyAt<T>(entries: seq<(string, T)>, i: nat)
    requires i < |entries|
    ensures Keys(entries)[i] == entries[i].0
    decreases i
  {
    if i > 0 {
      KeyAt(entries[1..], i - 1);
    }
  }

  /** Dropping the first entry keeps the keys distinct. */
  lemma UniqueKeysTail<T>(entries: seq<(string, T)>)
    requires UniqueKeys(entries) && entries != []
    ensures UniqueKeys(entries[1..])
  {
    forall i, j | 0 <= i < j < |entries[1..]| ensures entries[1..][i].0 != entries[1..][j].0 {
      assert entries[1..][i] == entries[i + 1] && entries[1..][j] == entries[j + 1];
    }
  }

  /** `d[key]`, `None` when the key is absent. */
  function GetKey<T>(entries: seq<(string, T)>, key: string): (r: Option<T>)
    ensures r.None? <==> key !in Keys(entries)
  {
    if entries == [] then None
    else if entries[0].0 == key then Some(entries[0].1)
    else GetKey(entries[1..], key)
  }

  /** `d[key] = v`: replaces the value in place or appends the key. */
  function SetKey<T>(entries: seq<(string, T)>, key: string, v: T): (r: seq<(string, T)>)
    ensures GetKey(r, key) == Some(v)
    ensures forall k :: k != key ==> GetKey(r, k) == GetKey(entries, k)
  {
    if entries == [] then [(key, v)]
    else if entries[0].0 == key then [(key, v)] + entries[1..]
    else [entries[0]] + SetKey(entries[1..], key, v)
  }

  /** Assigning an existing key keeps the key order; a new key goes last. */
  lemma {:induction false} SetKeyOrder<T>(entries: seq<(string, T)>, key: string, v: T)
    ensures Keys(SetKey(entries, key, v)) == if key in Keys(entries) then Keys(entries) else Keys(entries) + [key]
    decreases |entries|
  {
    if entries != [] && entries[0].0 != key {
      var rest := SetKey(entries[1..], key, v);
      SetKeyOrder(entries[1..], key, v);
      assert Keys([entries[0]] + rest) == [entries[0].0] + Keys(rest);
      assert Keys(entries) == [entries[0].0] + Keys(entries[1..]);
    }
  }

  /** A second assignment to the same key overwrites the first, in place. */
  lemma {:induction false} SetKeyTwice<T>(entries: seq<(string, T)>, key: string, a: T, b: T)
    ensures SetKey(SetKey(entries, key, a), key, b) == SetKey(entries, key, b)
    decreases |entries|
  {
    if entries != [] && entries[0].0 != key {
      SetKeyTwice(entries[1..], key, a, b);
      assert ([entries[0]] + SetKey(entries[1..], key, a))[1..] == SetKey(entries[1..], key, a);
    }
  }

  /** `parts.join(sep)`. */
  function JoinWith(parts: seq<string>, sep: string): string
    decreases |parts|
  {
    if parts == [] then ""
    else if |parts| == 1 then parts[0]
    else parts[0] + sep + JoinWith(parts[1..], sep)
  }

  /** `newComponent(type, attributes = {}, properties = {}, children = {},
      decorators = {})`: a component holding the given dictionaries, all
      empty by default. */
  function NewComponent(typeName: string, attributes: seq<(string, Value)> := [], properties: seq<(string, Component)> := [],
                        children: seq<(string, seq<Component>)> := [], decorators: seq<(string, Value)> := []): (c: Component)
    ensures c.typeName == typeName && c.attributes == attributes && c.properties == properties
    ensures c.children == children && c.decorators == decorators
  {
    Component(typeName, decorators, attributes, properties, children)
  }

  /** `createComponentLoadResult(component, errors = [])`. */
  function CreateComponentLoadResult(component: Component, errors: seq<MatchingError> := []): (r: ComponentLoadResult)
    ensures r.component == component && r.errors == errors
  {
    ComponentLoadResult(component, errors)
  }

  /** `addTrace(context, key)`: a new context one step deeper. */
  function AddTrace(context: AstContext, key: string): (r: AstContext)
    ensures |r.traces| == |context.traces| + 1
    ensures r.traces[..|context.traces|] == context.traces
    ensures r.traces[|context.traces|] == Trace(key)
  {
    AstContext(context.traces + [Trace(key)])
  }

  /** `createAstContext(key)`: the context of a module's root. */
  function CreateAstContext(key: string): (r: AstContext)
    ensures r.traces == [Trace(key)]
  {
    AstContext([Trace(key)])
  }

  /** A root context is the empty context with one trace added, and each
      `addTrace` records exactly the keys of the path, in order. */
  lemma {:induction false} TracesRecordPath(root: string, path: seq<string>)
    ensures PathContext(CreateAstContext(root), path).traces
      == [Trace(root)] + seq(|path|, i requires 0 <= i < |path| => Trace(path[i]))
    decreases |path|
  {
    if path != [] {
      var front := path[..|path| - 1];
      TracesRecordPath(root, front);
      assert PathContext(CreateAstContext(root), path) == AddTrace(PathContext(CreateAstContext(root), front), path[|path| - 1]);
    }
  }

  /** The context reached by adding the keys of `path` one after another. */
  function PathContext(context: AstContext, path: seq<string>): AstContext
    decreases |path|
  {
    if path == [] then context else AddTrace(PathContext(context, path[..|path| - 1]), path[|path| - 1])
  }
}
