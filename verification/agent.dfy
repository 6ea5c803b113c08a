/**
  The shared record of the retrieval-and-refinement workflow (`AgentState` in
  lang_pipeline.py), the partial updates the stages return, and the two external
  collaborators the stages consult: a chunk store and a text-generation model.
 */
module Agent {
  import opened Options

  /** The validator's verdict, the strings "yes" and "no" of the source. */
  datatype Verdict = Yes | No

  /**
    What a model reply parses to, after code fences are removed and the rest is
    read as JSON.  Only the shapes the workflow distinguishes are kept: an array of
    strings, an object with the four keys the stages read (each absent or null is
    `None`), or any other JSON value.
   */
  datatype Json =
    | JArray(items: seq<string>)
    | JObject(status: Option<string>, feedback: Option<string>, answer: Option<string>, citations: Option<seq<string>>)
    | JScalar

  /** One stored chunk row as the retrieval query selects it. */
  datatype Row = Row(id: string, sectionHeading: string, content: string)

  /**
    `AgentState`.  Keys the graph has not written yet read as their `.get` defaults:
    no sections, no chunks; `isValid` and `finalResponse` are `None` until written.
   */
  datatype State = State(
    query: string,
    documentId: Option<string>,
    targetSections: seq<string>,
    retrievedChunks: seq<Row>,
    isValid: Option<Verdict>,
    finalResponse: Option<Json>,
    reviewFeedback: Option<string>,
    retryCount: int)

  /**
    The dictionary a stage returns: `Some` for each key it writes.  `reviewFeedback`
    is doubly optional because a stage can write `None` into it.
   */
  datatype Update = Update(
    documentId: Option<string>,
    targetSections: Option<seq<string>>,
    retrievedChunks: Option<seq<Row>>,
    isValid: Option<Verdict>,
    finalResponse: Option<Json>,
    reviewFeedback: Option<Option<string>>,
    retryCount: Option<int>)

  /** A stage result that writes nothing. */
  const NoChange := Update(None, None, None, None, None, None, None)

  /**
    The graph merges a stage's update into the state, key by key: a key the stage
    wrote takes the written value, every other key keeps its value, and the query is
    never written.
   */
  function Merge(s: State, u: Update): (r: State)
    ensures r.query == s.query
    ensures u == NoChange ==> r == s
    ensures u.targetSections.Some? ==> r.targetSections == u.targetSections.value
    ensures u.retrievedChunks.Some? ==> r.retrievedChunks == u.retrievedChunks.value
    ensures u.isValid.Some? ==> r.isValid == u.isValid
    ensures u.finalResponse.Some? ==> r.finalResponse == u.finalResponse
    ensures u.reviewFeedback.Some? ==> r.reviewFeedback == u.reviewFeedback.value
    ensures u.retryCount.Some? ==> r.retryCount == u.retryCount.value
    ensures u.documentId.Some? ==> r.documentId == u.documentId
    ensures u.isValid.None? ==> r.isValid == s.isValid
    ensures u.finalResponse.None? ==> r.finalResponse == s.finalResponse
    ensures u.retryCount.None? ==> r.retryCount == s.retryCount
    ensures u.documentId.None? ==> r.documentId == s.documentId
    ensures u.targetSections.None? ==> r.targetSections == s.targetSections
    ensures u.retrievedChunks.None? ==> r.retrievedChunks == s.retrievedChunks
    ensures u.reviewFeedback.None? ==> r.reviewFeedback == s.reviewFeedback
  {
    State(
      s.query,
      if u.documentId.Some? then Some(u.documentId.value) else s.documentId,
      u.targetSections.GetOr(s.targetSections),
      u.retrievedChunks.GetOr(s.retrievedChunks),
      if u.isValid.Some? then u.isValid else s.isValid,
      if u.finalResponse.Some? then u.finalResponse else s.finalResponse,
      u.reviewFeedback.GetOr(s.reviewFeedback),
      u.retryCount.GetOr(s.retryCount))
  }

  /** Merging the same update twice is merging it once. */
  lemma MergeIdempotent(s: State, u: Update)
    ensures Merge(Merge(s, u), u) == Merge(s, u)
  {
  }

  /** Whether update `v` writes every key that `u` writes. */
  predicate Covers(v: Update, u: Update) {
    && (u.documentId.Some? ==> v.documentId.Some?)
    && (u.targetSections.Some? ==> v.targetSections.Some?)
    && (u.retrievedChunks.Some? ==> v.retrievedChunks.Some?)
    && (u.isValid.Some? ==> v.isValid.Some?)
    && (u.finalResponse.Some? ==> v.finalResponse.Some?)
    && (u.reviewFeedback.Some? ==> v.reviewFeedback.Some?)
    && (u.retryCount.Some? ==> v.retryCount.Some?)
  }

  /** A later update that writes every key an earlier one wrote hides the earlier one. */
  lemma MergeOverwrites(s: State, u: Update, v: Update)
    requires Covers(v, u)
    ensures Merge(Merge(s, u), v) == Merge(s, v)
  {
  }

  /** Python truthiness of an optional string: present and non-empty. */
  predicate Truthy(o: Option<string>) {
    o.Some? && o.value != ""
  }

  /** The question each stage puts to the model; wording is left out, content is kept. */
  datatype Request =
    | SelectSections(query: string, toc: seq<string>)
    | JudgeSufficiency(query: string, chunks: seq<Row>)
    | DraftAnswer(query: string, chunks: seq<Row>, feedback: Option<string>)
    | GradeAnswer(answer: string, citations: seq<string>)

  /** An external call made during a run: a model request or the chunk query. */
  datatype Call = Ask(request: Request) | FetchChunks(documentId: string, sections: seq<string>)

  /**
    The store as the workflow sees it: the document its default ordering puts first
    (if any), the chunk rows of each document in store order, and whether the
    retrieval query fails.
   */
  datatype Store = Store(defaultDocument: Option<string>, rows: map<string, seq<Row>>, fetchFails: bool)

  /** The rows stored for document `doc` (none for an unknown document). */
  function RowsOf(store: Store, doc: string): seq<Row> {
    if doc in store.rows then store.rows[doc] else []
  }

  /** What the retrieval query returns: rows, or the exception it raised. */
  datatype StoreAnswer = Rows(rows: seq<Row>) | StoreError

  /**
    Everything outside the workflow: the store, the model as a script (`oracle(k)`
    is the reply to the k-th model call of the run), and the JSON reader.
   */
  datatype Env = Env(store: Store, oracle: nat -> string, parse: string -> Option<Json>)

  /** The literal answer returned when the context is judged insufficient. */
  const FallbackAnswer := "Insufficient information found in the clinical guidelines to answer this query safely."

  /** The fixed response of the insufficient-information stage: fallback answer, no citations. */
  const Fallback := JObject(None, None, Some(FallbackAnswer), Some([]))

  /**
    The state `run_pipeline` starts the graph with: the query and document id as
    given, no retries used and no feedback; every other key unwritten.
   */
  function InitialState(query: string, documentId: Option<string>): (r: State)
    ensures r.query == query && r.documentId == documentId
    ensures r.retryCount == 0 && r.reviewFeedback == None
    ensures r.targetSections == [] && r.retrievedChunks == []
    ensures r.isValid.None? && r.finalResponse.None?
  {
    State(query, documentId, [], [], None, None, None, 0)
  }
}
