# FSC question answering: a Dafny model of its query core

The application answers questions about the Financial Supervisory Commission's
penalty cases, law interpretations and announcements. It sends the question to a
hosted Gemini model that has File Search over up to three document stores. This
project models the logic around that call, in `app/main.py`:

- `Stores` (`stores.dfy`): the static store table and the store ids that a
  selection names. Keys that are not in the table are dropped, and the caller's
  order is kept.
- `Prompt` (`prompt.dfy`): the system instruction. It is a fixed base prompt,
  followed by one guideline block for each selected recognised store, always in
  the order penalties, law interpretations, announcements. `DecodeGuidelines`
  reads the selected kinds back out of a prompt, so the round-trip lemma shows
  that the prompt carries exactly the selected blocks.
- `Extraction` (`extraction.dfy`): the response as a datatype whose probed
  attributes are explicit options. `ExtractSources` is the loop that walks the
  grounding chunks of the first candidate. It returns the records collected
  before a chunk whose score cannot be converted, which is the source's
  exception path. It is proved equal to the specification `Extracted`, and the
  lemmas about that function state the per-chunk and per-field rules.
- `Query` (`query.dfy`): `query_gemini`. The endpoint is an oracle from a
  request to either a response or an exception message. The lemmas show two
  things. When no selected key names a store, the oracle is never consulted.
  Otherwise only the built request matters.
- `Session` (`session.dfy`): the query branch of the page. It decides whether a
  query is issued, and it issues exactly one identical retry when the first
  successful answer cites no source. It records the requests handed to the
  endpoint, and a lemma shows the endpoint is consulted on those requests only.

An identifier-alias table, a display-name resolver and date-sorted grouping of
citations are not part of `app/main.py`, so they are not modelled. The page builds its selection in the sidebar from the keys of the store table
(`app/main.py:223-232`), so the `Session` module takes only such selections.
From the page, `query_gemini`'s no-store branch is therefore never taken, as
`Session.SidebarSelectionAlwaysSends` shows. That branch is modelled for
`query_gemini` on its own, which accepts any list of keys.

## Model

| member | source | states |
|---|---|---|
| Stores.StoreIds | app/main.py:116 | At most one id per selected key. The result is empty exactly when no selected key is in the store table. |
| Stores.StoreIdsAppend | app/main.py:116 | Selecting from a concatenation gives the ids of each part, in order, so the caller's order is kept. |
| Stores.StoreIdsMembership | app/main.py:116 | An id is selected if and only if some selected key is in the table and has that store id. Unknown keys contribute nothing. |
| Stores.StoreIdsDistinct | app/main.py:25-50 | Different table keys name different stores. |
| Stores.StoreIdsNoDuplicates | app/main.py:116 | A selection without repeated keys yields store ids without repeats. The sidebar builds such a selection (lines 223-232). |
| Prompt.Selected | app/main.py:77-98 | A block kind is selected if and only if its key is in the selection. The kinds come in the fixed order penalties, interpretations, announcements, whatever the caller's order or duplicates. |
| Prompt.GetSystemPrompt | app/main.py:63-103 | The prompt starts with the base prompt. It is exactly the base prompt if and only if none of the three recognised keys is selected. |
| Prompt.JoinedBlocksAreSections | app/main.py:101-102 | The base, then a line break, then the blocks joined by line breaks: this equals each block preceded by a line break. |
| Prompt.Assemble | app/main.py:100-103 | The result starts with the base prompt. It equals the base prompt if and only if there are no guideline blocks. |
| Prompt.AssembleLayout | app/main.py:100-103 | Assembling the blocks of some kinds gives the base prompt followed by one section per kind. |
| Prompt.JoinAfter | app/main.py:102 | A line break and the blocks joined by line breaks, after any base text, equal that base followed by one section per kind. |
| Prompt.PromptLayout | app/main.py:79-103 | The prompt is the base prompt followed by one section per selected kind, in the fixed order. |
| Prompt.SectionsDiffer | app/main.py:80-98 | The section of one kind never starts the text of another kind's section, so the blocks cannot be confused. |
| Prompt.DecodeSectionsInverse | app/main.py:79-102 | Reading sections back from a concatenation of ordered sections yields those kinds. |
| Prompt.DecodeGetSystemPrompt | app/main.py:63-103 | Round trip: decoding the prompt gives back exactly the selected kinds, in order. Each block is present if and only if its key is selected. |
| Prompt.SamePromptIffSameRecognisedKeys | app/main.py:79-103 | Two selections give the same prompt if and only if they agree on which of the three recognised keys they contain. |
| Prompt.UnknownKeyIgnored | app/main.py:79-98 | Inserting a key that is none of the three recognised keys, anywhere in the selection, leaves the prompt unchanged. |
| Extraction.LastSegment | app/main.py:195 | The result is a suffix of the URI with no slash. It is either the whole URI or is preceded by a slash, so it is what follows the last slash. |
| Extraction.Filename | app/main.py:191-195 | The filename is the title if the title is non-empty. Otherwise it is the last slash segment of a non-empty URI. Otherwise it is the unknown-file label. |
| Extraction.Snippet | app/main.py:197-199 | The snippet is a prefix of the text, of length min(len, 500). It is empty when there is no text or the text is empty. |
| Extraction.SourceOf | app/main.py:187-209 | A chunk's record carries the filename and snippet of its context, or defaults for a None context. The score is 1.0 when the chunk has none. |
| Extraction.FirstRaise | app/main.py:201-203 | The index of the first chunk with a context whose score conversion raises. No earlier chunk raises. |
| Extraction.ChunksOf | app/main.py:179-185 | The chunks walked are the grounding chunks of the first candidate's metadata. They are present only when every nesting level is present. |
| Extraction.RecordedStep | app/main.py:186-209 | Walking one more chunk that does not raise appends its record when it carries a context, and nothing otherwise. |
| Extraction.WalkChunks | app/main.py:186-214 | The loop over the chunks returns the records of the chunks before the first one whose score raises. |
| Extraction.ExtractSources | app/main.py:172-214 | The result equals the specification `Extracted`, including the early exits and the partial list returned when a score raises. |
| Extraction.RecordedAppend | app/main.py:186-209 | The records of a concatenation of chunks are the records of each part, in order. |
| Extraction.RecordedOnePerContextChunk | app/main.py:186-209 | There is exactly one record per chunk carrying a context, in chunk order. The record of chunk j comes after the records of the context chunks before it. |
| Extraction.NoChunksNoSources | app/main.py:179-185 | There are no records when the candidates are missing or empty, or the first candidate has no metadata, or the chunks are missing or empty. |
| Extraction.OnlyFirstCandidate | app/main.py:179-180 | Candidates after the first do not affect the records. |
| Extraction.ExtractedRecords | app/main.py:176-214 | The result holds one record per context chunk before the first raising chunk, and all of them when none raises. The records collected before an exception are kept. |
| Query.BuildRequest | app/main.py:116-147 | No request is built exactly when no selected key is a store. Otherwise the request carries the question, the selected store ids, the assembled prompt and the fixed model, temperature and output limit. |
| Query.AnswerText | app/main.py:152 | The answer is the response's text attribute when present, else the response's string form. |
| Query.SentRequests | app/main.py:116-147 | A query hands the endpoint at most one request. It hands none exactly when no selected key is a store, and the request carries the question and the selected store ids. |
| Query.QueryGemini | app/main.py:106-169 | With no store, the result is an error record with the fixed message and no sources. If the endpoint raises, the result is an error whose answer is the failure prefix plus the message. On success there is no error, and the result holds the answer text and the extracted sources. |
| Query.NoStoreNeverCallsEndpoint | app/main.py:116-123 | With no store selected, any two endpoints give the same error result, so the endpoint is never consulted. |
| Query.OnlyBuiltRequestIsSent | app/main.py:126-147 | Two endpoints that agree on the built request give the same result. |
| Query.QueryConsultsOnlySentRequests | app/main.py:116-169 | Two endpoints that answer the sent requests alike give the same result, so the endpoint is consulted on those requests only. |
| Query.ErrorIffNoStoreOrRaise | app/main.py:118-169 | The result is an error if and only if no store is selected or the endpoint raised. |
| Session.Submit | app/main.py:317-376 | At most two query calls, all with the page's own question and selection. A query happens if and only if the button was pressed, the question is non-empty and the selection is non-empty. There are no more endpoint requests than query calls. |
| Session.SidebarSelectionAlwaysSends | app/main.py:223-232 | For a non-empty selection built by the sidebar, a request is always built. A failed query then means the endpoint raised. |
| Session.RetryIffFirstSuccessHasNoSources | app/main.py:317-366 | A second query happens if and only if a query was issued and the first result is a success without sources. |
| Session.RetrySendsSameRequestOnce | app/main.py:322-366 | When the query is retried, a request was built, and the requests sent to the endpoint are exactly that request, twice. |
| Session.SubmitConsultsOnlyRecordedRequests | app/main.py:317-376 | The page's outcome depends on the endpoint only through its answers to the recorded requests, the n-th request being put by the n-th query. |
| Session.FailedRetryShowsNoResults | app/main.py:366-376 | A retry that fails ends in the no-results message, because its sources are empty. |

## Left out

- Page rendering is not modelled: `render_sidebar`, titles, widgets, expanders, metrics, `st.session_state`, `st.rerun`, the clear button and the example-question buttons. The display truncations of filename, snippet and store names are also not modelled. These are presentation code.
- The `genai` client and the `generate_content` call are not modelled. They are an external library and network I/O, and the `Query.Endpoint` oracle stands in for them.
- The `latency` key of the success record is not modelled. `time.time()` is a wall clock and the value is a float.
- `float(chunk.score)` is modelled only as its outcome: a real value, or `Unconvertible` when it raises. Python's conversion and float formatting are not modelled.
- `str(response)` and `str(e)` are supplied by the endpoint as strings: the response's `repr` field and the exception message. They are not computed.
- A `text` attribute that is present with the value None is not told apart from a missing one. The model's answer is always a string.
- The warning that extraction shows when it catches an exception is not modelled. It is display only, and the records returned are modelled.
- A missing candidates list and one whose value is None both give no records. The model treats them the same: the second raises inside the `try`, which returns the empty list.
- Session.Submit requires a selection the sidebar can build, with only store-table keys (`app/main.py:223-232`). For any other selection, the success path would raise `KeyError` at `app/main.py:337`, before the sources test and the retry. The page never builds such a selection, so the crash is not modelled.
- API-key lookup and `st.stop()` are not modelled. They are configuration.
