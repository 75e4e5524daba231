/** One question sent to the File Search endpoint over the selected stores
    (app/main.py, `query_gemini`). The endpoint is an oracle: what it answers
    to a request, or the message of the exception it raises. */
module Query {
  import opened Wrappers
  import Stores
  import Prompt
  import Extraction

  const ModelName: string := "gemini-2.5-flash"
  const Temperature: real := 0.1
  const MaxOutputTokens: nat := 2000

  const NoStoreMessage: string := "請至少選擇一個資料來源"
  const FailurePrefix: string := "查詢失敗: "

  /** The arguments of one `generate_content` call. */
  datatype Request = Request(
    model: string,
    contents: string,
    fileSearchStoreNames: seq<string>,
    temperature: real,
    maxOutputTokens: nat,
    systemInstruction: string)

  /** The endpoint: a response to a request, or an exception's message. */
  type Endpoint = Request -> Result<Extraction.Response, string>

  /** The result record of a query; the success record's latency is not
      modelled. */
  datatype QueryResult = QueryResult(answer: string, sources: seq<Extraction.Source>, error: bool)

  /** The request a query sends, or `None` when no selected key names a store
      and nothing is sent. */
  function BuildRequest(question: string, selected: seq<string>): (r: Option<Request>)
    ensures r.None? <==> forall i :: 0 <= i < |selected| ==> selected[i] !in Stores.StoreTable
    ensures r.Some? ==>
      && r.value.contents == question
      && r.value.fileSearchStoreNames == Stores.StoreIds(selected)
      && r.value.systemInstruction == Prompt.GetSystemPrompt(selected)
      && r.value.model == ModelName
      && r.value.temperature == Temperature
      && r.value.maxOutputTokens == MaxOutputTokens
  {
    var storeIds := Stores.StoreIds(selected);
    if storeIds == [] then None
    else Some(Request(ModelName, question, storeIds, Temperature, MaxOutputTokens, Prompt.GetSystemPrompt(selected)))
  }

  /** The answer text: the response's text, or its string form when it has
      no text attribute. */
  function AnswerText(response: Extraction.Response): (answer: string)
    ensures response.text.Some? ==> answer == response.text.value
    ensures response.text.None? ==> answer == response.repr
  {
    response.text.GetOr(response.repr)
  }

  /** The requests a query hands to the endpoint: the built request, or
      none when no selected key names a store. */
  function SentRequests(question: string, selected: seq<string>): (requests: seq<Request>)
    ensures |requests| <= 1
    ensures requests == [] <==> forall i :: 0 <= i < |selected| ==> selected[i] !in Stores.StoreTable
    ensures forall i :: 0 <= i < |requests| ==>
      requests[i].contents == question && requests[i].fileSearchStoreNames == Stores.StoreIds(selected)
  {
    match BuildRequest(question, selected)
    case None => []
    case Some(request) => [request]
  }

  /** The query: a fixed error record when no store is selected, a prefixed
      error record when the endpoint raises, and otherwise the answer with
      the sources extracted from the response. */
  function QueryGemini(question: string, selected: seq<string>, endpoint: Endpoint): (r: QueryResult)
    ensures r.error ==> r.sources == []
    ensures BuildRequest(question, selected).None? ==> r == QueryResult(NoStoreMessage, [], true)
    ensures BuildRequest(question, selected).Some? ==>
      match endpoint(BuildRequest(question, selected).value)
      case Failure(message) => r.error && r.answer == FailurePrefix + message
      case Success(response) =>
        !r.error && r.answer == AnswerText(response) && r.sources == Extraction.Extracted(response)
  {
    match BuildRequest(question, selected)
    case None => QueryResult(NoStoreMessage, [], true)
    case Some(request) =>
      match endpoint(request)
      case Failure(message) => QueryResult(FailurePrefix + message, [], true)
      case Success(response) => QueryResult(AnswerText(response), Extraction.Extracted(response), false)
  }

  /** With no store selected the endpoint is never consulted: any two
      endpoints give the same error record. */
  lemma NoStoreNeverCallsEndpoint(question: string, selected: seq<string>, e1: Endpoint, e2: Endpoint)
    requires forall i :: 0 <= i < |selected| ==> selected[i] !in Stores.StoreTable
    ensures QueryGemini(question, selected, e1) == QueryGemini(question, selected, e2)
    ensures QueryGemini(question, selected, e1).error
  {
  }

  /** Otherwise the endpoint is consulted on exactly the built request: two
      endpoints that agree on it give the same result. */
  lemma OnlyBuiltRequestIsSent(question: string, selected: seq<string>, e1: Endpoint, e2: Endpoint)
    requires BuildRequest(question, selected).Some?
    requires e1(BuildRequest(question, selected).value) == e2(BuildRequest(question, selected).value)
    ensures QueryGemini(question, selected, e1) == QueryGemini(question, selected, e2)
  {
  }

  /** A result is an error exactly when no store is selected or the endpoint
      raised. */
  lemma ErrorIffNoStoreOrRaise(question: string, selected: seq<string>, endpoint: Endpoint)
    ensures QueryGemini(question, selected, endpoint).error <==>
      BuildRequest(question, selected).None? || endpoint(BuildRequest(question, selected).value).Failure?
  {
  }

  /** The endpoint is consulted on the sent requests and nothing else: two
      endpoints that answer them alike give the same result. */
  lemma QueryConsultsOnlySentRequests(question: string, selected: seq<string>, e1: Endpoint, e2: Endpoint)
    requires forall i :: 0 <= i < |SentRequests(question, selected)| ==>
      e1(SentRequests(question, selected)[i]) == e2(SentRequests(question, selected)[i])
    ensures QueryGemini(question, selected, e1) == QueryGemini(question, selected, e2)
  {
    match BuildRequest(question, selected)
    case None =>
    case Some(request) =>
      assert SentRequests(question, selected)[0] == request;
  }
}
