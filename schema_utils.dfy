/** The candidate search of the component schema: the first node an
    enumeration yields that recognises a value. The search is lazy: it asks
    one candidate after the other and stops at the first that says yes, so
    neither later candidates nor a later failure of the enumeration are
    reached. */
module SchemaUtils {

  import opened Values
  import opened AstNodes
  import opened Schema
  import opened TaggedNode
  import opened InlineNode
  import opened ErrorNode

  /** `hasIdentity` of each kind of node. */
  function HasIdentity(n: AstNode, v: Value): (r: Try<bool>)
    ensures n.ErrorNode? ==> r == Success(true)
    ensures r.Failure? ==> v.Undefined? || v.Null?
  {
    match n
    case ErrorNode(_) => Success(ErrorHasIdentity(v))
    case NodeSchema(_, _, identity) =>
      match identity
      case Tagged(identityKey, identityValue) => TaggedHasIdentity(identityKey, identityValue, v)
      case Inline(identityValue) => InlineHasIdentity(identityValue, v)
      case AnyObject => Success(v.Arr? || v.Obj? || v.Fn?)
  }

  const NoMatchMessage := "Cannot find matching node"

  /** `neverMatchedNode`: a generator of one error node. */
  const NeverMatchedNode: Enumerator := Yields([ErrorNode(NoMatchMessage)])

  /** The loop of `findMatchingNodeOrUndefined` over what the generator yields
      before it stops with `failure`, if it does. */
  function FirstMatch(v: Value, nodes: seq<AstNode>, failure: Option<Exception>): Try<Option<AstNode>>
    decreases |nodes|
  {
    if nodes == [] then
      match failure
      case Some(e) => Failure(e)
      case None => Success(None)
    else
      match HasIdentity(nodes[0], v)
      case Failure(e) => Failure(e)
      case Success(true) => Success(Some(nodes[0]))
      case Success(false) => FirstMatch(v, nodes[1..], failure)
  }

  /** `findMatchingNodeOrUndefined(node, nodeIteratorMaker)`. */
  function FindMatchingNodeOrUndefined(st: SchemaState, v: Value, candidates: Enumerator): Try<Option<AstNode>>
    requires Valid(st)
  {
    var e := Enumerate(st, candidates);
    FirstMatch(v, e.nodes, e.failure)
  }

  /** `findMatchingNode(node, nodeIteratorMaker)`: an error node stands in
      when nothing matches. */
  function FindMatchingNode(st: SchemaState, v: Value, candidates: Enumerator): (r: Try<AstNode>)
    requires Valid(st)
    ensures r.Failure? <==> FindMatchingNodeOrUndefined(st, v, candidates).Failure?
    ensures FindMatchingNodeOrUndefined(st, v, candidates) == Success(None) ==> r == Success(ErrorNode(NoMatchMessage))
  {
    match FindMatchingNodeOrUndefined(st, v, candidates)
    case Failure(e) => Failure(e)
    case Success(None) => Success(ErrorNode(NoMatchMessage))
    case Success(Some(n)) => Success(n)
  }

  /** None of the first `k` candidates recognises the value. */
  ghost predicate NoneBefore(v: Value, nodes: seq<AstNode>, k: nat)
    requires k <= |nodes|
  {
    forall j :: 0 <= j < k ==> HasIdentity(nodes[j], v) == Success(false)
  }

  /** The search returns the candidate at `k` when it is the first that
      recognises the value, whatever follows it and however the generator
      ends: the later candidates are never asked. */
  lemma {:induction false} FirstMatchStops(v: Value, nodes: seq<AstNode>, failure: Option<Exception>, k: nat)
    requires k < |nodes| && NoneBefore(v, nodes, k) && HasIdentity(nodes[k], v) == Success(true)
    ensures FirstMatch(v, nodes, failure) == Success(Some(nodes[k]))
    decreases k
  {
    if k > 0 {
      assert HasIdentity(nodes[0], v) == Success(false);
      assert nodes[1..][k - 1] == nodes[k];
      FirstMatchStops(v, nodes[1..], failure, k - 1);
    }
  }

  /** When no candidate recognises the value, the search reports the
      generator's own failure, or nothing. */
  lemma {:induction false} FirstMatchExhausted(v: Value, nodes: seq<AstNode>, failure: Option<Exception>)
    requires NoneBefore(v, nodes, |nodes|)
    ensures FirstMatch(v, nodes, failure) == (match failure case Some(e) => Failure(e) case None => Success(None))
    decreases |nodes|
  {
    if nodes != [] {
      assert HasIdentity(nodes[0], v) == Success(false);
      FirstMatchExhausted(v, nodes[1..], failure);
    }
  }

  /** A candidate that throws while asked aborts the search with its error. */
  lemma {:induction false} FirstMatchThrows(v: Value, nodes: seq<AstNode>, failure: Option<Exception>, k: nat)
    requires k < |nodes| && NoneBefore(v, nodes, k) && HasIdentity(nodes[k], v).Failure?
    ensures FirstMatch(v, nodes, failure) == Failure(HasIdentity(nodes[k], v).exception)
    decreases k
  {
    if k > 0 {
      assert HasIdentity(nodes[0], v) == Success(false);
      assert nodes[1..][k - 1] == nodes[k];
      FirstMatchThrows(v, nodes[1..], failure, k - 1);
    }
  }

  /** What the search returns is always one of those three outcomes: a
      found node is the first that recognises the value. */
  lemma {:induction false} FirstMatchFound(v: Value, nodes: seq<AstNode>, failure: Option<Exception>)
    requires FirstMatch(v, nodes, failure).Success? && FirstMatch(v, nodes, failure).value.Some?
    ensures exists k :: (0 <= k < |nodes| && NoneBefore(v, nodes, k) && HasIdentity(nodes[k], v) == Success(true)
                         && FirstMatch(v, nodes, failure).value.value == nodes[k])
    decreases |nodes|
  {
    if HasIdentity(nodes[0], v) != Success(true) {
      FirstMatchFound(v, nodes[1..], failure);
      var k :| 0 <= k < |nodes[1..]| && NoneBefore(v, nodes[1..], k) && HasIdentity(nodes[1..][k], v) == Success(true)
        && FirstMatch(v, nodes[1..], failure).value.value == nodes[1..][k];
      assert NoneBefore(v, nodes, k + 1) by {
        forall j | 0 <= j < k + 1 ensures HasIdentity(nodes[j], v) == Success(false) {
          if j > 0 {
            assert nodes[j] == nodes[1..][j - 1];
          }
        }
      }
      assert nodes[k + 1] == nodes[1..][k];
    } else {
      assert NoneBefore(v, nodes, 0);
    }
  }

  /** `neverMatchedNode` always produces the error node, for any value. */
  lemma NeverMatchedNodeMatches(st: SchemaState, v: Value)
    requires Valid(st)
    ensures FindMatchingNode(st, v, NeverMatchedNode) == Success(ErrorNode(NoMatchMessage))
  {
  }
}
