/** `InilineNode` (sic): a node schema for a one-key object whose key names
    the node, like `{ "sql": "SELECT 1" }`; that key is its only, required,
    attribute. */
module InlineNode {

  import opened Values
  import opened AstNodes

  /** `new InilineNode(type, identityValue, validate)`. */
  function NewInlineNode(typeName: string, identityValue: string, validate: NodeValidator): (n: AstNode)
    ensures n.NodeSchema? && n.typeName == typeName && n.identity == Inline(identityValue)
    ensures Keys(n.keys) == [identityValue]
    ensures n.keys[0].1.target == [Attribute] && !n.keys[0].1.optional && n.keys[0].1.validate == Some(validate)
  {
    NodeSchema(typeName, [(identityValue, KeyDetail([Attribute], None, None, Some(validate), false))], Inline(identityValue))
  }

  /** `Object.keys(node)`: a TypeError on null and undefined. */
  function ObjectKeys(v: Value): (r: Try<seq<string>>)
    ensures r.Failure? <==> v.Undefined? || v.Null?
    ensures r.Success? ==> r.value == Keys(Entries(v))
  {
    if v.Undefined? || v.Null? then Failure(JsTypeError("Cannot convert undefined or null to object"))
    else Success(Keys(Entries(v)))
  }

  /** `InilineNode.hasIdentity(node)`: exactly one own key, the identity value. */
  function InlineHasIdentity(identityValue: string, v: Value): (r: Try<bool>)
    ensures r.Failure? <==> v.Undefined? || v.Null?
  {
    match ObjectKeys(v)
    case Failure(e) => Failure(e)
    case Success(keys) => Success(|keys| == 1 && keys[0] == identityValue)
  }

  /** A plain object has the identity exactly when its only entry is under
      the identity value; a string has it exactly when it is one character
      long and the identity value is "0" (its one index key). */
  lemma InlineIdentityCases(identityValue: string, v: Value)
    ensures v.Obj? ==> (InlineHasIdentity(identityValue, v) == Success(true) <==> |v.entries| == 1 && v.entries[0].0 == identityValue)
    ensures v.Str? ==> (InlineHasIdentity(identityValue, v) == Success(true) <==> |v.s| == 1 && identityValue == "0")
    ensures v.Num? || v.Bool? || v.Fn? ==> InlineHasIdentity(identityValue, v) == Success(false)
  {
    if v.Str? && |v.s| == 1 {
      assert Entries(v) == [("0", Str([v.s[0]]))];
    }
  }
}
