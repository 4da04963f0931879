/** `ErrorNode`: the node put in place of a missing match. It recognises
    every value and loading anything through it yields its message as the
    only error, on an `empty` component. */
module ErrorNode {

  import opened Values
  import opened AstNodes

  /** `ErrorNode.type`. */
  const ErrorNodeType := "error"

  /** `ErrorNode.hasIdentity`: true for every value, null and undefined included. */
  predicate ErrorHasIdentity(v: Value) {
    true
  }

  /** `ErrorNode.load`: the value is not looked at. */
  function ErrorLoad(message: string, v: Value, context: AstContext): (r: ComponentLoadResult)
    ensures r.errors == [MatchingError(message, context)]
    ensures r.component == NewComponent("empty")
  {
    CreateComponentLoadResult(NewComponent("empty"), [MatchingError(message, context)])
  }
}
