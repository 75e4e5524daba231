/** What one press of the query button does (app/main.py, `main`, the query
    branch): whether a query is issued, and the single retry when the first
    successful answer cites no source. */
module Session {
  import Stores
  import Query
  import Extraction

  /** One call of the query function, with its arguments. */
  datatype Invocation = Invocation(question: string, selected: seq<string>)

  /** What the page shows after the button is handled. */
  datatype Screen =
    | Idle
    | SelectionMissing
    | QueryFailed(message: string)
    | Answered(result: Query.QueryResult)
    | RetrySucceeded(first: Query.QueryResult, retry: Query.QueryResult)
    | NoRelevantResults(first: Query.QueryResult, retry: Query.QueryResult)

  /** The calls of the query function, the requests they hand to the
      endpoint in order, and what the page then shows. */
  datatype Outcome = Outcome(invocations: seq<Invocation>, requests: seq<Query.Request>, screen: Screen)

  /** A query is issued for a submitted, non-empty question and a non-empty
      selection. */
  /** A selection the sidebar can build: it only adds keys it reads from the
      store table. */
  predicate FromSidebar(selected: seq<string>)
  {
    forall i :: 0 <= i < |selected| ==> selected[i] in Stores.StoreTable
  }

  predicate Issues(submitted: bool, question: string, selected: seq<string>)
  {
    submitted && question != "" && selected != []
  }

  /** Handles the button. `endpoint(n)` is the endpoint as the `n`-th query
      of this press finds it, so a retry may be answered differently. */
  function Submit(submitted: bool, question: string, selected: seq<string>, endpoint: nat -> Query.Endpoint): (o: Outcome)
    requires FromSidebar(selected)
    ensures |o.invocations| <= 2
    ensures forall i :: 0 <= i < |o.invocations| ==> o.invocations[i] == Invocation(question, selected)
    ensures o.invocations != [] <==> Issues(submitted, question, selected)
    ensures |o.requests| <= |o.invocations|
  {
    if !(submitted && question != "") then Outcome([], [], Idle)
    else if selected == [] then Outcome([], [], SelectionMissing)
    else
      var call := Invocation(question, selected);
      var sent := Query.SentRequests(question, selected);
      var first := Query.QueryGemini(question, selected, endpoint(0));
      if first.error then Outcome([call], sent, QueryFailed(first.answer))
      else if first.sources != [] then Outcome([call], sent, Answered(first))
      else
        var retry := Query.QueryGemini(question, selected, endpoint(1));
        if retry.sources != [] then Outcome([call, call], sent + sent, RetrySucceeded(first, retry))
        else Outcome([call, call], sent + sent, NoRelevantResults(first, retry))
  }

  /** From the page, a query always builds a request: the no-store branch
      of the query function is never taken, and a failed first query means
      the endpoint raised. */
  lemma SidebarSelectionAlwaysSends(question: string, selected: seq<string>, endpoint: Query.Endpoint)
    requires FromSidebar(selected) && selected != []
    ensures Query.BuildRequest(question, selected).Some?
    ensures Query.QueryGemini(question, selected, endpoint).error ==>
      endpoint(Query.BuildRequest(question, selected).value).Failure?
  {
    assert selected[0] in Stores.StoreTable;
  }

  /** The second query happens exactly when a query is issued and the first
      result is a success without sources. */
  lemma RetryIffFirstSuccessHasNoSources(submitted: bool, question: string, selected: seq<string>, endpoint: nat -> Query.Endpoint)
    requires FromSidebar(selected)
    ensures |Submit(submitted, question, selected, endpoint).invocations| == 2 <==>
      && Issues(submitted, question, selected)
      && !Query.QueryGemini(question, selected, endpoint(0)).error
      && Query.QueryGemini(question, selected, endpoint(0)).sources == []
  {
  }

  /** A retry sends the endpoint the very request of the first call, and
      the endpoint receives nothing else: two identical requests. */
  lemma RetrySendsSameRequestOnce(submitted: bool, question: string, selected: seq<string>, endpoint: nat -> Query.Endpoint)
    requires FromSidebar(selected)
    requires |Submit(submitted, question, selected, endpoint).invocations| == 2
    ensures Query.BuildRequest(question, selected).Some?
    ensures var r := Query.BuildRequest(question, selected).value;
      Submit(submitted, question, selected, endpoint).requests == [r, r]
  {
    var first := Query.QueryGemini(question, selected, endpoint(0));
    assert !first.error;
  }

  /** The page depends on the endpoint only through its answers to the
      recorded requests: the `n`-th request is put to the endpoint as the
      `n`-th query finds it. */
  lemma SubmitConsultsOnlyRecordedRequests(submitted: bool, question: string, selected: seq<string>,
                                           e1: nat -> Query.Endpoint, e2: nat -> Query.Endpoint)
    requires FromSidebar(selected)
    requires var rs := Submit(submitted, question, selected, e1).requests;
      forall n :: 0 <= n < |rs| ==> e1(n)(rs[n]) == e2(n)(rs[n])
    ensures Submit(submitted, question, selected, e1) == Submit(submitted, question, selected, e2)
  {
    if submitted && question != "" && selected != [] {
      SidebarSelectionAlwaysSends(question, selected, e1(0));
      var r := Query.BuildRequest(question, selected).value;
      var o := Submit(submitted, question, selected, e1);
      assert Query.SentRequests(question, selected) == [r];
      assert o.requests[0] == r;
      Query.OnlyBuiltRequestIsSent(question, selected, e1(0), e2(0));
      var first := Query.QueryGemini(question, selected, e1(0));
      if !first.error && first.sources == [] {
        assert o.requests == [r, r];
        assert o.requests[1] == r;
        Query.OnlyBuiltRequestIsSent(question, selected, e1(1), e2(1));
      }
    }
  }

  /** A retry that fails ends in the no-results message, not in an error:
      its sources are empty. */
  lemma FailedRetryShowsNoResults(submitted: bool, question: string, selected: seq<string>, endpoint: nat -> Query.Endpoint)
    requires FromSidebar(selected)
    requires |Submit(submitted, question, selected, endpoint).invocations| == 2
    requires Query.QueryGemini(question, selected, endpoint(1)).error
    ensures Submit(submitted, question, selected, endpoint).screen.NoRelevantResults?
  {
  }
}
