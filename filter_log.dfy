/** The record predicate of the `filter-log` action: a JSON Lines record
    whose `message` starts with or contains one of the listed strings is
    replaced by `null`; every other record passes through. */
module FilterLog {

  import opened Values

  /** `message.startsWith(str)`. */
  predicate StartsWith(message: string, str: string) {
    str <= message
  }

  /** `message.includes(str)`, searched from each position in turn. */
  function Includes(message: string, str: string): (r: bool)
    ensures r <==> exists i :: 0 <= i <= |message| && str <= message[i..]
    decreases |message|
  {
    if str <= message then
      assert message[0..] == message;
      true
    else if message == [] then false
    else
      var r := Includes(message[1..], str);
      assert forall i :: 1 <= i <= |message| ==> message[1..][i - 1..] == message[i..];
      assert r ==> exists i :: 1 <= i <= |message| && str <= message[i..];
      r
  }

  /** `avoidStartWiths.some((str) => message.startsWith(str))`. */
  function SomeStartsWith(message: string, avoid: seq<string>): (r: bool)
    ensures r <==> exists i :: 0 <= i < |avoid| && StartsWith(message, avoid[i])
    decreases |avoid|
  {
    if avoid == [] then false
    else if StartsWith(message, avoid[0]) then true
    else
      var r := SomeStartsWith(message, avoid[1..]);
      assert forall i :: 1 <= i < |avoid| ==> avoid[1..][i - 1] == avoid[i];
      r
  }

  /** `avoidContains.some((str) => message.includes(str))`. */
  function SomeIncludes(message: string, avoid: seq<string>): (r: bool)
    ensures r <==> exists i :: 0 <= i < |avoid| && Includes(message, avoid[i])
    decreases |avoid|
  {
    if avoid == [] then false
    else if Includes(message, avoid[0]) then true
    else
      var r := SomeIncludes(message, avoid[1..]);
      assert forall i :: 1 <= i < |avoid| ==> avoid[1..][i - 1] == avoid[i];
      r
  }

  /** `avoidContains.some((str) => message.includes(str))` for an array
      `message`: `Array.prototype.includes` looks for an element equal to
      the string. */
  function SomeElement(items: seq<Value>, avoid: seq<string>): (r: bool)
    ensures r <==> exists i :: 0 <= i < |avoid| && Str(avoid[i]) in items
    decreases |avoid|
  {
    if avoid == [] then false
    else if Str(avoid[0]) in items then true
    else
      var r := SomeElement(items, avoid[1..]);
      assert forall i :: 1 <= i < |avoid| ==> avoid[1..][i - 1] == avoid[i];
      r
  }

  /** The filter applied to one parsed record: the record, `null` to drop
      it, or the TypeError JavaScript raises. Reading `message` of `null`
      raises. A `message` that is not a string has no `startsWith`, so a
      non-empty `avoidStartWiths` raises; then an array looks its elements
      up with `includes`, and any other value raises when `avoidContains`
      is non-empty. */
  function FilterRecord(record: Value, avoidStartWiths: seq<string>, avoidContains: seq<string>): Result<Value> {
    match Field(record, "message")
    case Err(e) => Err(e)
    case Good(message) =>
      if message == Undefined then Good(record)
      else if !message.Str? then
        if avoidStartWiths != [] then
          if message == Null then Err(TypeError("Cannot read properties of null (reading 'startsWith')"))
          else Err(TypeError("message.startsWith is not a function"))
        else if avoidContains == [] then Good(record)
        else if message.Arr? then
          if SomeElement(message.items, avoidContains) then Good(Null) else Good(record)
        else if message == Null then Err(TypeError("Cannot read properties of null (reading 'includes')"))
        else Err(TypeError("message.includes is not a function"))
      else if SomeStartsWith(message.s, avoidStartWiths) then Good(Null)
      else if SomeIncludes(message.s, avoidContains) then Good(Null)
      else Good(record)
  }

  // ---------------------------------------------------------------------------
  // Properties

  /** A record without a `message` passes through unchanged. */
  lemma NoMessagePasses(entries: seq<(string, Value)>, avoidStartWiths: seq<string>, avoidContains: seq<string>)
    requires Lookup(entries, "message") == Undefined
    ensures FilterRecord(Obj(entries), avoidStartWiths, avoidContains) == Good(Obj(entries))
  {
  }

  /** A record whose message is a string is dropped exactly when the message
      starts with some entry of `avoidStartWiths` or contains some entry of
      `avoidContains`, and passes through unchanged otherwise. */
  lemma DroppedIff(entries: seq<(string, Value)>, message: string, avoidStartWiths: seq<string>, avoidContains: seq<string>)
    requires Lookup(entries, "message") == Str(message)
    ensures var r := FilterRecord(Obj(entries), avoidStartWiths, avoidContains);
      r.Good? &&
      (r.value == Null <==>
         (exists i :: 0 <= i < |avoidStartWiths| && avoidStartWiths[i] <= message) ||
         (exists i, k :: 0 <= i < |avoidContains| && 0 <= k <= |message| && avoidContains[i] <= message[k..])) &&
      (r.value != Null ==> r.value == Obj(entries))
  {
    if !SomeStartsWith(message, avoidStartWiths) && !SomeIncludes(message, avoidContains) {
      assert !exists i, k :: 0 <= i < |avoidContains| && 0 <= k <= |message| && avoidContains[i] <= message[k..];
    }
    if exists i, k :: 0 <= i < |avoidContains| && 0 <= k <= |message| && avoidContains[i] <= message[k..] {
      var i, k :| 0 <= i < |avoidContains| && 0 <= k <= |message| && avoidContains[i] <= message[k..];
      assert Includes(message, avoidContains[i]);
    }
  }

  /** An empty string in either list drops every record that has a string
      message: every string starts with and contains `""`. */
  lemma EmptyEntryDropsAll(entries: seq<(string, Value)>, message: string, avoidStartWiths: seq<string>, avoidContains: seq<string>)
    requires Lookup(entries, "message") == Str(message)
    requires "" in avoidStartWiths || "" in avoidContains
    ensures FilterRecord(Obj(entries), avoidStartWiths, avoidContains) == Good(Null)
  {
    if "" in avoidStartWiths {
      var i :| 0 <= i < |avoidStartWiths| && avoidStartWiths[i] == "";
      assert StartsWith(message, avoidStartWiths[i]);
    } else {
      var i :| 0 <= i < |avoidContains| && avoidContains[i] == "";
      assert Includes(message, avoidContains[i]);
    }
  }

  /** A record whose message is an array passes the prefix test only when
      `avoidStartWiths` is empty, and then is dropped exactly when some entry
      of `avoidContains` is an element of the array. */
  lemma ArrayMessageMembership(entries: seq<(string, Value)>, items: seq<Value>, avoidStartWiths: seq<string>, avoidContains: seq<string>)
    requires Lookup(entries, "message") == Arr(items)
    ensures var r := FilterRecord(Obj(entries), avoidStartWiths, avoidContains);
      (avoidStartWiths != [] ==> r == Err(TypeError("message.startsWith is not a function"))) &&
      (avoidStartWiths == [] ==>
        r == if exists i :: 0 <= i < |avoidContains| && Str(avoidContains[i]) in items then Good(Null) else Good(Obj(entries)))
  {
  }

  /** With `avoidContains = ["a"]`, the array message `["a"]` is dropped
      and `["b"]` passes. */
  lemma ArrayMessageExample()
    ensures FilterRecord(Obj([("message", Arr([Str("a")]))]), [], ["a"]) == Good(Null)
    ensures FilterRecord(Obj([("message", Arr([Str("b")]))]), [], ["a"]) == Good(Obj([("message", Arr([Str("b")]))]))
  {
    ArrayMessageMembership([("message", Arr([Str("a")]))], [Str("a")], [], ["a"]);
    ArrayMessageMembership([("message", Arr([Str("b")]))], [Str("b")], [], ["a"]);
    assert Str("a") != Str("b");
  }
}
