/** `PaginatedAsyncCursor`: a cursor over pages that a query function hands
    out one at a time, each page carrying the token for the next. The query
    is an oracle that may answer differently over time, so it also receives
    the number of queries made before it. */
module Cursor {

  import opened Values

  /** `CursorState`: the entries of one page and its continuation token
      (`Undefined` when the page has none). */
  datatype Page = Page(entries: seq<Value>, continuationToken: Value)

  /** `executeQuery(continuationToken)`; no token is `Undefined`. */
  type Query = (nat, Value) -> Page

  /** A page that names another: its token is neither null nor undefined. */
  predicate HasNext(p: Page) {
    p.continuationToken != Null && p.continuationToken != Undefined
  }

  /** The cursor's state: the last page fetched, if any, and the tokens
      passed to the query so far, in order. */
  datatype CursorState = CursorState(lastFetched: Option<Page>, queried: seq<Value>)

  /** The first call to `next` always queries, with no token. */
  predicate Fresh(c: CursorState) {
    c.lastFetched.None? && c.queried == []
  }

  /** Nothing more will be fetched: the last page names no next page. */
  predicate Exhausted(c: CursorState) {
    c.lastFetched.Some? && !HasNext(c.lastFetched.value)
  }

  /** `data`: nothing before the first fetch, then the last page's entries. */
  function Data(c: CursorState): seq<Value> {
    if c.lastFetched.None? then [] else c.lastFetched.value.entries
  }

  /** The state after one call to `next`, and what that call returns. */
  datatype Advanced = Advanced(state: CursorState, more: bool)

  /** One call to `next`: the first call queries without a token; a later
      call queries with the last page's token, or returns false when there
      is none. A call that queries returns whether the new page has
      entries. */
  function Advance(c: CursorState, query: Query): (r: Advanced)
    ensures c.lastFetched.None? ==>
      r.state.queried == c.queried + [Undefined] && r.state.lastFetched == Some(query(|c.queried|, Undefined))
    ensures c.lastFetched.Some? && HasNext(c.lastFetched.value) ==>
      r.state.queried == c.queried + [c.lastFetched.value.continuationToken] &&
      r.state.lastFetched == Some(query(|c.queried|, c.lastFetched.value.continuationToken))
    ensures Exhausted(c) ==> r == Advanced(c, false)
    ensures r.more <==> |r.state.queried| > |c.queried| && |Data(r.state)| > 0
  {
    if c.lastFetched.None? then
      var page := query(|c.queried|, Undefined);
      Advanced(CursorState(Some(page), c.queried + [Undefined]), |page.entries| > 0)
    else if HasNext(c.lastFetched.value) then
      var token := c.lastFetched.value.continuationToken;
      var page := query(|c.queried|, token);
      Advanced(CursorState(Some(page), c.queried + [token]), |page.entries| > 0)
    else Advanced(c, false)
  }

  /** The results of `n` calls to `next` in a row, and the state after. */
  function Calls(c: CursorState, query: Query, n: nat): (r: (CursorState, seq<bool>))
    ensures |r.1| == n
    decreases n
  {
    if n == 0 then (c, [])
    else
      var first := Advance(c, query);
      var rest := Calls(first.state, query, n - 1);
      (rest.0, [first.more] + rest.1)
  }

  /** Once `next` has returned false for want of a token, every later call
      returns false, queries nothing and leaves `data` as it was. */
  lemma {:induction false} ExhaustedIsFinal(c: CursorState, query: Query, n: nat)
    requires Exhausted(c)
    ensures Calls(c, query, n).0 == c
    ensures forall k :: 0 <= k < n ==> !Calls(c, query, n).1[k]
    decreases n
  {
    if n > 0 {
      ExhaustedIsFinal(c, query, n - 1);
    }
  }

  /** A page that is empty but names a next page makes `next` return false,
      and yet the following call fetches that next page. */
  lemma EmptyPageStillContinues(c: CursorState, query: Query)
    requires c.lastFetched.Some? && HasNext(c.lastFetched.value)
    requires query(|c.queried|, c.lastFetched.value.continuationToken).entries == []
    requires HasNext(query(|c.queried|, c.lastFetched.value.continuationToken))
    ensures var first := Advance(c, query);
      !first.more &&
      Advance(first.state, query).state.queried
      == c.queried + [c.lastFetched.value.continuationToken,
                      query(|c.queried|, c.lastFetched.value.continuationToken).continuationToken]
  {
  }

  class PaginatedAsyncCursor {
    var lastFetched: Option<Page>
    /** The tokens passed to `executeQuery` so far, in order. */
    var queried: seq<Value>
    const executeQuery: Query

    function State(): CursorState
      reads this
    {
      CursorState(lastFetched, queried)
    }

    constructor (executeQuery: Query)
      ensures Fresh(State()) && this.executeQuery == executeQuery
    {
      this.executeQuery := executeQuery;
      lastFetched := None;
      queried := [];
    }

    method Next() returns (more: bool)
      modifies this
      ensures Advance(old(State()), executeQuery) == Advanced(State(), more)
    {
      if lastFetched.None? {
        lastFetched := Some(executeQuery(|queried|, Undefined));
        queried := queried + [Undefined];
      } else if lastFetched.value.continuationToken != Null && lastFetched.value.continuationToken != Undefined {
        var token := lastFetched.value.continuationToken;
        lastFetched := Some(executeQuery(|queried|, token));
        queried := queried + [token];
      } else {
        return false;
      }
      return |lastFetched.value.entries| > 0;
    }

    /** `data`. */
    function Entries(): (r: seq<Value>)
      reads this
      ensures lastFetched.None? ==> r == []
      ensures lastFetched.Some? ==> r == lastFetched.value.entries
    {
      Data(State())
    }
  }
}
