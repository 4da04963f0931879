/** `TaggedNode`: a node schema recognised by the string stored under its
    identity key (`kind` by default). The identity key is itself a required
    attribute whose validator insists on that string. */
module TaggedNode {

  import opened Values
  import opened AstNodes

  /** `node[key]` on a value: a TypeError on null and undefined; otherwise
      the own entry under that key, `undefined` when there is none. */
  function ReadKey(v: Value, key: string): (r: Try<Value>)
    ensures r.Failure? <==> v.Undefined? || v.Null?
  {
    match v
    case Undefined => Failure(JsTypeError("Cannot read properties of undefined"))
    case Null => Failure(JsTypeError("Cannot read properties of null"))
    case _ => Success(Lookup(Entries(v), key))
  }

  /** The message of the identity validator; the source has two spaces
      before the offending value. */
  function IdentityMessage(identityValue: string, identityKey: string, v: Value): string {
    "Value of key " + identityKey + " must be equal to " + identityValue + " not to  " + JsString(v)
  }

  /** `TaggedNode.validateIdentity(identityValue, identityKey)`: one error
      exactly when the value is not the identity string. */
  function ValidateIdentity(identityValue: string, identityKey: string): (validator: NodeValidator)
    ensures forall v, context :: validator(v, context) == [] <==> v == Str(identityValue)
    ensures forall v, context :: v != Str(identityValue) ==>
      validator(v, context) == [MatchingError(IdentityMessage(identityValue, identityKey, v), context)]
  {
    (v: Value, context: AstContext) =>
      if v != Str(identityValue) then [MatchingError(IdentityMessage(identityValue, identityKey, v), context)] else []
  }

  /** The key detail the constructor puts under the identity key. */
  function IdentityDetail(identityValue: string, identityKey: string): KeyDetail {
    KeyDetail([Attribute], None, None, Some(ValidateIdentity(identityValue, identityKey)), false)
  }

  /** `{...base, ...keys}`: each key of `keys` in turn is assigned, so a key
      already in `base` keeps its place and takes the new detail. */
  function Spread(base: seq<(string, KeyDetail)>, keys: seq<(string, KeyDetail)>): seq<(string, KeyDetail)>
    decreases |keys|
  {
    if keys == [] then base else Spread(SetKey(base, keys[0].0, keys[0].1), keys[1..])
  }

  /** `new TaggedNode(type, identityValue, keys, identityKey = 'kind')`. */
  function NewTaggedNode(typeName: string, identityValue: string, keys: seq<(string, KeyDetail)>, identityKey: string := "kind"): (n: AstNode)
    ensures n.NodeSchema? && n.typeName == typeName && n.identity == Tagged(identityKey, identityValue)
  {
    NodeSchema(typeName, Spread([(identityKey, IdentityDetail(identityValue, identityKey))], keys), Tagged(identityKey, identityValue))
  }

  /** `TaggedNode.hasIdentity(node)`: `node[identityKey] === identityValue`. */
  function TaggedHasIdentity(identityKey: string, identityValue: string, v: Value): (r: Try<bool>)
    ensures r.Failure? <==> v.Undefined? || v.Null?
  {
    match ReadKey(v, identityKey)
    case Failure(e) => Failure(e)
    case Success(x) => Success(x == Str(identityValue))
  }

  /** After the spread, a key of `keys` has the caller's detail and any other
      key keeps the detail it had in `base`. */
  lemma {:induction false} SpreadLookup(base: seq<(string, KeyDetail)>, keys: seq<(string, KeyDetail)>, k: string)
    requires UniqueKeys(keys)
    ensures GetKey(Spread(base, keys), k) == if k in Keys(keys) then GetKey(keys, k) else GetKey(base, k)
    decreases |keys|
  {
    if keys != [] {
      var next := SetKey(base, keys[0].0, keys[0].1);
      assert Keys(keys) == [keys[0].0] + Keys(keys[1..]);
      UniqueKeysTail(keys);
      SpreadLookup(next, keys[1..], k);
      if k == keys[0].0 {
        assert k !in Keys(keys[1..]) by {
          forall i | 0 <= i < |keys[1..]| ensures Keys(keys[1..])[i] != k {
            KeyAt(keys[1..], i);
            assert keys[1..][i] == keys[i + 1];
          }
        }
      }
    }
  }

  /** Assignments keep the first key of a non-empty dictionary first. */
  lemma {:induction false} SpreadKeepsFirst(base: seq<(string, KeyDetail)>, keys: seq<(string, KeyDetail)>)
    requires base != []
    ensures Spread(base, keys) != [] && Spread(base, keys)[0].0 == base[0].0
    decreases |keys|
  {
    if keys != [] {
      var next := SetKey(base, keys[0].0, keys[0].1);
      SetKeyOrder(base, keys[0].0, keys[0].1);
      KeyAt(base, 0);
      KeyAt(next, 0);
      SpreadKeepsFirst(next, keys[1..]);
    }
  }

  /** The constructor's dictionary: the identity key comes first; its detail
      is the caller's when the caller names that key, the identity validator
      otherwise; every other key has exactly the caller's detail. */
  lemma TaggedNodeKeys(typeName: string, identityValue: string, keys: seq<(string, KeyDetail)>, identityKey: string, k: string)
    requires UniqueKeys(keys)
    ensures |NewTaggedNode(typeName, identityValue, keys, identityKey).keys| > 0
    ensures NewTaggedNode(typeName, identityValue, keys, identityKey).keys[0].0 == identityKey
    ensures GetKey(NewTaggedNode(typeName, identityValue, keys, identityKey).keys, identityKey)
      == if identityKey in Keys(keys) then GetKey(keys, identityKey) else Some(IdentityDetail(identityValue, identityKey))
    ensures k != identityKey ==> GetKey(NewTaggedNode(typeName, identityValue, keys, identityKey).keys, k) == GetKey(keys, k)
  {
    var base := [(identityKey, IdentityDetail(identityValue, identityKey))];
    SpreadKeepsFirst(base, keys);
    SpreadLookup(base, keys, identityKey);
    SpreadLookup(base, keys, k);
  }

  /** Lookup in a dictionary without repeated keys finds the entry holding the key. */
  lemma {:induction false} LookupUnique(entries: seq<(string, Value)>, i: nat)
    requires UniqueKeys(entries) && i < |entries|
    ensures Lookup(entries, entries[i].0) == entries[i].1
    decreases i
  {
    if i > 0 {
      UniqueKeysTail(entries);
      assert entries[1..][i - 1] == entries[i];
      LookupUnique(entries[1..], i - 1);
    }
  }

  /** On a plain object, `hasIdentity` holds exactly when the object has the
      entry `identityKey: identityValue`; it never throws there. */
  lemma TaggedIdentityOfObject(identityKey: string, identityValue: string, entries: seq<(string, Value)>)
    requires UniqueKeys(entries)
    ensures TaggedHasIdentity(identityKey, identityValue, Obj(entries)) == Success(true)
      <==> exists i :: 0 <= i < |entries| && entries[i] == (identityKey, Str(identityValue))
    ensures TaggedHasIdentity(identityKey, identityValue, Obj(entries)).Success?
  {
    if Lookup(entries, identityKey) == Str(identityValue) {
      LookupIndexed(entries, identityKey);
    }
    if exists i :: 0 <= i < |entries| && entries[i] == (identityKey, Str(identityValue)) {
      var i :| 0 <= i < |entries| && entries[i] == (identityKey, Str(identityValue));
      LookupUnique(entries, i);
    }
  }

  /** A key that `Lookup` finds a defined value under is the key of some entry. */
  lemma {:induction false} LookupIndexed(entries: seq<(string, Value)>, key: string)
    requires Lookup(entries, key) != Undefined
    ensures exists i :: 0 <= i < |entries| && entries[i] == (key, Lookup(entries, key))
    decreases |entries|
  {
    if entries[0].0 != key {
      LookupIndexed(entries[1..], key);
      var i :| 0 <= i < |entries[1..]| && entries[1..][i] == (key, Lookup(entries[1..], key));
      assert entries[i + 1] == entries[1..][i];
    }
  }

  /** `hasIdentity` and the identity key's validator agree: a value has the
      tag exactly when the validator accepts what it holds under the key. */
  lemma TaggedIdentityMatchesValidator(identityKey: string, identityValue: string, v: Value, context: AstContext)
    requires !v.Undefined? && !v.Null?
    ensures TaggedHasIdentity(identityKey, identityValue, v) == Success(true)
      <==> ValidateIdentity(identityValue, identityKey)(Lookup(Entries(v), identityKey), context) == []
  {
  }
}
