/** JavaScript-like values shared by the expression engine, the runtime and the
    step interpreter, together with the few host conversions they rely on
    (truthiness, property-key strings, `Object.entries`, `for ... of`). */
module Values {

  datatype Option<+T> = None | Some(value: T) {
    function GetOr(default: T): T {
      match this
      case Some(v) => v
      case None => default
    }
  }

  /** Index of a runtime in the engine's runtime store. */
  type RuntimeId = nat

  /** A value as the engine sees it. Objects keep their own keys in insertion
      order, because `Object.entries` order is observable. */
  datatype Value =
    | Undefined
    | Null
    | Bool(b: bool)
    | Num(n: int)
    | Str(s: string)
    | Arr(items: seq<Value>)
    | Obj(entries: seq<(string, Value)>)
    | Fn(callable: Callable)

  /** The callables the engine can produce. Each closure over a runtime names
      the runtime it was built in. */
  datatype Callable =
      /** an entry of a runtime's function table */
    | Builtin(name: string, owner: RuntimeId)
      /** the closure returned by `setVar(name)` */
    | VarSetter(owner: RuntimeId, key: string)
      /** the closure returned by `createValueMapper(mapping, default)` */
    | ValueMapper(pairs: seq<(Value, Value)>, fallback: Value)
      /** the closure an `expr$` directive is replaced by */
    | Deferred(owner: RuntimeId, source: Value)
      /** the closure an `eval$` or `eval$$` directive is replaced by */
    | DeferredScript(owner: RuntimeId, directive: string, source: Value)
      /** a closure produced by host code (file, time, parsing helpers) */
    | HostClosure(tag: string)

  /** The errors the engine raises or lets through, by their `name`. */
  datatype Error =
    | ExitProcedure(returnedValue: Value)   // 'exit_procedure'
    | FunctionUnavailable(name: string)     // 'function_unavaible'
    | SyntaxicError(token: string)          // 'syntaxic_error'
    | AbdSymbol                             // 'abd symbol'
    | ReachEofTooSoon                       // 'reach_eof_too_soon'
    | TokenizerHangs(index: nat)            // the tokenizer loops forever at this index
    | AssertionFailed(message: Value)       // 'assertion_failed'
    | TypeError(what: string)               // a host TypeError
    | HostError(what: string)               // any error raised by host code
    | OutOfFuel                             // the model's recursion bound was reached

  /** What evaluating an expression or calling a callable produces. */
  datatype Outcome = Ok(value: Value) | Throw(error: Error)

  /** JavaScript truthiness (`!!v`). */
  predicate Truthy(v: Value) {
    match v
    case Undefined => false
    case Null => false
    case Bool(b) => b
    case Num(n) => n != 0
    case Str(s) => s != ""
    case _ => true
  }

  function DigitChar(d: nat): char
    requires d < 10
  {
    "0123456789"[d]
  }

  /** Decimal spelling of a natural number, as `String(n)` gives it. */
  function NatToString(n: nat): (s: string)
    ensures |s| > 0
    ensures forall i :: 0 <= i < |s| ==> '0' <= s[i] <= '9'
    decreases n
  {
    if n < 10 then [DigitChar(n)] else NatToString(n / 10) + [DigitChar(n % 10)]
  }

  function IntToString(n: int): string {
    if n < 0 then "-" + NatToString(-n) else NatToString(n)
  }

  /** `String(v)`, the conversion used when a value becomes a property key or
      is spliced into a template literal. */
  function JsString(v: Value): string {
    match v
    case Undefined => "undefined"
    case Null => "null"
    case Bool(b) => if b then "true" else "false"
    case Num(n) => IntToString(n)
    case Str(s) => s
    case Arr(items) => JoinElements(items)
    case Obj(_) => "[object Object]"
    case Fn(_) => "function"
  }

  /** `Array.prototype.join(',')`: null and undefined elements print as "". */
  function JoinElements(items: seq<Value>): string
    decreases items
  {
    if items == [] then ""
    else
      var head := if items[0] == Undefined || items[0] == Null then "" else JsString(items[0]);
      if |items| == 1 then head else head + "," + JoinElements(items[1..])
  }

  /** The value stored under `key` in an object's entries, `Undefined` if absent. */
  function Lookup(entries: seq<(string, Value)>, key: string): (v: Value)
    ensures (forall i :: 0 <= i < |entries| ==> entries[i].0 != key) ==> v == Undefined
  {
    if entries == [] then Undefined
    else if entries[0].0 == key then entries[0].1
    else Lookup(entries[1..], key)
  }

  /** `o[key] = v` on an object: replaces the value in place or appends the key. */
  function Put(entries: seq<(string, Value)>, key: string, v: Value): (r: seq<(string, Value)>)
    ensures Lookup(r, key) == v
    ensures forall k :: k != key ==> Lookup(r, k) == Lookup(entries, k)
  {
    if entries == [] then [(key, v)]
    else if entries[0].0 == key then [(key, v)] + entries[1..]
    else [entries[0]] + Put(entries[1..], key, v)
  }

  /** Property read `v.key` for the reserved field names the engine reads. It
      raises a TypeError on null and undefined, as JavaScript does; arrays,
      strings, numbers, booleans and functions have none of those fields. */
  function Field(v: Value, key: string): Result<Value>
  {
    match v
    case Undefined => Err(TypeError("Cannot read properties of undefined"))
    case Null => Err(TypeError("Cannot read properties of null"))
    case Obj(entries) => Good(Lookup(entries, key))
    case _ => Good(Undefined)
  }

  datatype Result<+T> = Good(value: T) | Err(error: Error)

  /** `v.key` where the source has already read a field of `v`, so `v` is
      neither null nor undefined there; those two read as `Undefined`. */
  function Prop(v: Value, key: string): Value {
    match Field(v, key)
    case Good(x) => x
    case Err(_) => Undefined
  }

  /** `Object.entries(v)` for a value that is neither null nor undefined. */
  function Entries(v: Value): seq<(string, Value)> {
    match v
    case Obj(entries) => entries
    case Arr(items) => seq(|items|, i requires 0 <= i < |items| => (NatToString(i), items[i]))
    case Str(s) => seq(|s|, i requires 0 <= i < |s| => (NatToString(i), Str([s[i]])))
    case _ => []
  }

  /** The elements `for (const x of v)` visits; a non-iterable raises a TypeError. */
  function Iterate(v: Value): Result<seq<Value>> {
    match v
    case Arr(items) => Good(items)
    case Str(s) => Good(seq(|s|, i requires 0 <= i < |s| => Str([s[i]])))
    case _ => Err(TypeError("is not iterable"))
  }

  /** `a || b` on values. */
  function OrElse(a: Value, b: Value): Value {
    if Truthy(a) then a else b
  }

  lemma {:induction false} NatToStringInjective(a: nat, b: nat)
    requires NatToString(a) == NatToString(b)
    ensures a == b
    decreases a
  {
    if a >= 10 && b >= 10 {
      var sa, sb := NatToString(a), NatToString(b);
      assert sa[..|sa| - 1] == NatToString(a / 10);
      assert sb[..|sb| - 1] == NatToString(b / 10);
      NatToStringInjective(a / 10, b / 10);
      assert DigitChar(a % 10) == sa[|sa| - 1] == DigitChar(b % 10);
    }
  }

  lemma AppendAssoc<T>(a: seq<T>, b: seq<T>, c: seq<T>)
    ensures a + b + c == a + (b + c)
  {
  }
}
