/** The endpoint's response, with every probed attribute made explicit, and
    the walk that turns its grounding chunks into source records
    (app/main.py, `extract_sources`). */
module Extraction {
  import opened Wrappers

  /** An attribute that may be missing, present with the value None, or
      present with a value; used where the source tells the first two apart. */
  datatype Attr<+T> = Absent | Null | Present(value: T)

  /** The `score` attribute of a chunk: missing, a value `float` accepts, or
      a value `float` rejects (None among them), which raises. */
  datatype ScoreAttr = NoScore | Score(value: real) | Unconvertible

  datatype RetrievedContext = RetrievedContext(title: Option<string>, uri: Option<string>, text: Option<string>)

  datatype GroundingChunk = GroundingChunk(retrievedContext: Attr<RetrievedContext>, score: ScoreAttr)

  datatype GroundingMetadata = GroundingMetadata(groundingChunks: Option<seq<GroundingChunk>>)

  datatype Candidate = Candidate(groundingMetadata: Option<GroundingMetadata>)

  /** A response: its `text` attribute, its string form, and its candidates. */
  datatype Response = Response(text: Option<string>, repr: string, candidates: Option<seq<Candidate>>)

  /** One source record. */
  datatype Source = Source(filename: string, snippet: string, score: real)

  const UnknownFile: string := "未知文件"
  const SnippetLimit: nat := 500

  /** Python's `s.split('/')[-1]`: what follows the last slash, or all of `s`. */
  function LastSegment(s: string): (r: string)
    ensures |r| <= |s| && r == s[|s| - |r|..]
    ensures '/' !in r
    ensures |r| < |s| ==> s[|s| - |r| - 1] == '/'
  {
    if s == [] then []
    else if s[|s| - 1] == '/' then []
    else LastSegment(s[..|s| - 1]) + [s[|s| - 1]]
  }

  /** The non-empty value of an optional string attribute. */
  predicate Truthy(a: Option<string>)
  {
    a.Some? && a.value != ""
  }

  /** The file name of a record: the title, else the last path segment of the
      URI, else the fixed unknown-file label. */
  function Filename(c: RetrievedContext): (f: string)
    ensures Truthy(c.title) ==> f == c.title.value
    ensures !Truthy(c.title) && Truthy(c.uri) ==>
      |f| <= |c.uri.value| && '/' !in f && f == c.uri.value[|c.uri.value| - |f|..]
      && (|f| < |c.uri.value| ==> c.uri.value[|c.uri.value| - |f| - 1] == '/')
    ensures !Truthy(c.title) && !Truthy(c.uri) ==> f == UnknownFile
  {
    if Truthy(c.title) then c.title.value
    else if Truthy(c.uri) then LastSegment(c.uri.value)
    else UnknownFile
  }

  /** The snippet of a record: the text cut to at most 500 characters. */
  function Snippet(c: RetrievedContext): (s: string)
    ensures !Truthy(c.text) ==> s == ""
    ensures Truthy(c.text) ==>
      s <= c.text.value && |s| == if |c.text.value| < SnippetLimit then |c.text.value| else SnippetLimit
  {
    if Truthy(c.text) then
      var t := c.text.value;
      if |t| <= SnippetLimit then t else t[..SnippetLimit]
    else ""
  }

  /** The context a chunk's record is read from: a None context has none of
      the probed attributes. */
  function ContextFields(a: Attr<RetrievedContext>): RetrievedContext
  {
    match a
    case Present(c) => c
    case _ => RetrievedContext(None, None, None)
  }

  predicate HasContext(chunk: GroundingChunk)
  {
    !chunk.retrievedContext.Absent?
  }

  /** A chunk whose record cannot be built: converting its score raises. */
  predicate Raises(chunk: GroundingChunk)
  {
    HasContext(chunk) && chunk.score.Unconvertible?
  }

  /** The record of a chunk that carries a context and does not raise. */
  function SourceOf(chunk: GroundingChunk): (r: Source)
    requires HasContext(chunk) && !Raises(chunk)
    ensures chunk.score.NoScore? ==> r.score == 1.0
    ensures chunk.score.Score? ==> r.score == chunk.score.value
    ensures r.filename == Filename(ContextFields(chunk.retrievedContext))
    ensures r.snippet == Snippet(ContextFields(chunk.retrievedContext))
  {
    var c := ContextFields(chunk.retrievedContext);
    var score := if chunk.score.Score? then chunk.score.value else 1.0;
    Source(Filename(c), Snippet(c), score)
  }

  /** The grounding chunks of the first candidate, or none when any level of
      the nesting is missing or empty. */
  function ChunksOf(response: Response): (chunks: seq<GroundingChunk>)
    ensures chunks != [] ==>
      && response.candidates.Some? && |response.candidates.value| > 0
      && response.candidates.value[0].groundingMetadata.Some?
      && response.candidates.value[0].groundingMetadata.value.groundingChunks == Some(chunks)
    ensures (&& response.candidates.Some? && |response.candidates.value| > 0
             && response.candidates.value[0].groundingMetadata.Some?
             && response.candidates.value[0].groundingMetadata.value.groundingChunks.Some?) ==>
      chunks == response.candidates.value[0].groundingMetadata.value.groundingChunks.value
  {
    match response.candidates
    case Some(cs) =>
      if |cs| > 0 then
        (match cs[0].groundingMetadata
         case Some(m) => m.groundingChunks.GetOr([])
         case None => [])
      else []
    case None => []
  }

  /** The records of every chunk carrying a context, in chunk order, for
      chunks none of which raises. */
  function Recorded(chunks: seq<GroundingChunk>): seq<Source>
    requires forall i :: 0 <= i < |chunks| ==> !Raises(chunks[i])
  {
    if chunks == [] then []
    else if HasContext(chunks[0]) then [SourceOf(chunks[0])] + Recorded(chunks[1..])
    else Recorded(chunks[1..])
  }

  /** The index of the first chunk that raises, or the number of chunks. */
  function FirstRaise(chunks: seq<GroundingChunk>): (n: nat)
    ensures n <= |chunks|
    ensures forall i :: 0 <= i < n ==> !Raises(chunks[i])
    ensures n < |chunks| ==> Raises(chunks[n])
  {
    if chunks == [] then 0
    else if Raises(chunks[0]) then 0
    else 1 + FirstRaise(chunks[1..])
  }

  /** What the walk yields: the records collected before the first chunk
      that raises. */
  function Extracted(response: Response): seq<Source>
  {
    var chunks := ChunksOf(response);
    Recorded(chunks[..FirstRaise(chunks)])
  }

  lemma {:induction false} RecordedAppend(a: seq<GroundingChunk>, b: seq<GroundingChunk>)
    requires forall i :: 0 <= i < |a| ==> !Raises(a[i])
    requires forall i :: 0 <= i < |b| ==> !Raises(b[i])
    ensures forall i :: 0 <= i < |a + b| ==> !Raises((a + b)[i])
    ensures Recorded(a + b) == Recorded(a) + Recorded(b)
  {
    if a == [] {
      assert a + b == b;
    } else {
      assert (a + b)[0] == a[0];
      assert (a + b)[1..] == a[1..] + b;
      RecordedAppend(a[1..], b);
    }
  }

  /** Extending the walked prefix by one chunk that does not raise adds its
      record when it carries a context, and nothing otherwise. */
  lemma RecordedStep(chunks: seq<GroundingChunk>, i: nat)
    requires i < FirstRaise(chunks)
    ensures Recorded(chunks[..i + 1]) ==
      Recorded(chunks[..i]) + if HasContext(chunks[i]) then [SourceOf(chunks[i])] else []
  {
    var chunk := chunks[i];
    assert [chunk][1..] == [];
    RecordedAppend(chunks[..i], [chunk]);
    assert chunks[..i + 1] == chunks[..i] + [chunk];
  }

  /** Walks the response as the source does, appending one record per chunk
      that carries a context and returning what was collected so far when a
      chunk's score cannot be converted. */
  method ExtractSources(response: Response) returns (sources: seq<Source>)
    ensures sources == Extracted(response)
  {
    sources := [];
    if response.candidates.None? || |response.candidates.value| == 0 {
      return;
    }
    var candidate := response.candidates.value[0];
    if candidate.groundingMetadata.None? {
      return;
    }
    var metadata := candidate.groundingMetadata.value;
    if metadata.groundingChunks.None? || |metadata.groundingChunks.value| == 0 {
      return;
    }
    var chunks := metadata.groundingChunks.value;
    assert chunks == ChunksOf(response);
    sources := WalkChunks(chunks);
  }

  /** The loop over the grounding chunks: one record per chunk carrying a
      context, stopping with the records so far when a score raises. */
  method WalkChunks(chunks: seq<GroundingChunk>) returns (sources: seq<Source>)
    ensures sources == Recorded(chunks[..FirstRaise(chunks)])
  {
    sources := [];
    var i := 0;
    while i < |chunks|
      invariant i <= FirstRaise(chunks)
      invariant sources == Recorded(chunks[..i])
    {
      var chunk := chunks[i];
      if !chunk.retrievedContext.Absent? {
        var context := ContextFields(chunk.retrievedContext);
        var filename := UnknownFile;
        if context.title.Some? && context.title.value != "" {
          filename := context.title.value;
        } else if context.uri.Some? && context.uri.value != "" {
          filename := LastSegment(context.uri.value);
        }
        var snippet := "";
        if context.text.Some? && context.text.value != "" {
          var text := context.text.value;
          snippet := if |text| <= SnippetLimit then text else text[..SnippetLimit];
        }
        var score := 1.0;
        match chunk.score {
          case NoScore =>
          case Score(v) => score := v;
          case Unconvertible => return;
        }
        assert Source(filename, snippet, score) == SourceOf(chunk);
        sources := sources + [Source(filename, snippet, score)];
      }
      RecordedStep(chunks, i);
      i := i + 1;
    }
    assert chunks[..i] == chunks;
  }

  /** The number of chunks that carry a context. */
  function ContextCount(chunks: seq<GroundingChunk>): (n: nat)
    ensures n <= |chunks|
  {
    if chunks == [] then 0
    else (if HasContext(chunks[0]) then 1 else 0) + ContextCount(chunks[1..])
  }

  /** One record per chunk that carries a context, in chunk order: the
      record of chunk `j` sits after the records of the chunks before it. */
  lemma {:induction false} RecordedOnePerContextChunk(chunks: seq<GroundingChunk>)
    requires forall i :: 0 <= i < |chunks| ==> !Raises(chunks[i])
    ensures |Recorded(chunks)| == ContextCount(chunks)
    ensures forall j :: 0 <= j < |chunks| && HasContext(chunks[j]) ==>
      ContextCount(chunks[..j]) < |Recorded(chunks)|
      && Recorded(chunks)[ContextCount(chunks[..j])] == SourceOf(chunks[j])
  {
    if chunks != [] {
      var rest := chunks[1..];
      RecordedOnePerContextChunk(rest);
      forall j | 0 <= j < |chunks| && HasContext(chunks[j])
        ensures ContextCount(chunks[..j]) < |Recorded(chunks)|
          && Recorded(chunks)[ContextCount(chunks[..j])] == SourceOf(chunks[j])
      {
        if j == 0 {
          assert chunks[..0] == [];
        } else {
          assert chunks[..j][1..] == rest[..j - 1];
          assert chunks[j] == rest[j - 1];
        }
      }
    }
  }

  /** The source's early exits: no candidates, an empty candidate list, no
      grounding metadata on the first candidate, or no or empty grounding
      chunks all yield no records. */
  lemma NoChunksNoSources(response: Response)
    requires
      || response.candidates.None?
      || response.candidates.value == []
      || response.candidates.value[0].groundingMetadata.None?
      || response.candidates.value[0].groundingMetadata.value.groundingChunks.None?
      || response.candidates.value[0].groundingMetadata.value.groundingChunks.value == []
    ensures Extracted(response) == []
  {
  }

  /** Only the first candidate is examined. */
  lemma OnlyFirstCandidate(text: Option<string>, repr: string, first: Candidate, others: seq<Candidate>)
    ensures Extracted(Response(text, repr, Some([first] + others)))
         == Extracted(Response(None, "", Some([first])))
  {
  }

  /** The records returned: exactly one per context-carrying chunk before
      the first chunk whose score raises (all of them when none raises), in
      chunk order; records already collected are kept when one raises. */
  lemma ExtractedRecords(response: Response)
    ensures var chunks := ChunksOf(response);
      var n := FirstRaise(chunks);
      && |Extracted(response)| == ContextCount(chunks[..n])
      && (forall j :: 0 <= j < n && HasContext(chunks[j]) ==>
            ContextCount(chunks[..j]) < |Extracted(response)|
            && Extracted(response)[ContextCount(chunks[..j])] == SourceOf(chunks[j]))
      && (n == |chunks| ==> |Extracted(response)| == ContextCount(chunks))
  {
    var chunks := ChunksOf(response);
    var n := FirstRaise(chunks);
    var done := chunks[..n];
    RecordedOnePerContextChunk(done);
    forall j | 0 <= j < n && HasContext(chunks[j])
      ensures ContextCount(chunks[..j]) < |Extracted(response)|
            && Extracted(response)[ContextCount(chunks[..j])] == SourceOf(chunks[j])
    {
      assert done[j] == chunks[j] && done[..j] == chunks[..j];
    }
    if n == |chunks| {
      assert done == chunks;
    }
  }
}
