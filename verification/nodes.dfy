/**
  The six stages of the workflow (lang_pipeline.py).  Each stage is split in two:
  `...Call` says which external call the stage makes in a given state (if any),
  and the stage function itself maps the state and the answer to that call to the
  partial update the stage returns.
 */
module Nodes {
  import opened Options
  import opened Seqs
  import opened Text
  import opened Agent

  // ----- Structure: choose the relevant headings of the table of contents -----

  /** The document the structure stage works on: the state's, or the store's first one. */
  function ResolveDocument(s: State, store: Store): (d: Option<string>)
    ensures Truthy(s.documentId) ==> d == s.documentId
    ensures !Truthy(s.documentId) ==> d == store.defaultDocument
  {
    if Truthy(s.documentId) then s.documentId else store.defaultDocument
  }

  /** The section heading of every row, in row order (repeats included). */
  function Headings(rows: seq<Row>): (hs: seq<string>)
    ensures |hs| == |rows|
    ensures forall i :: 0 <= i < |rows| ==> hs[i] == rows[i].sectionHeading
  {
    seq(|rows|, i requires 0 <= i < |rows| => rows[i].sectionHeading)
  }

  /** The table of contents shown to the model: each heading of `rows` once. */
  function Toc(rows: seq<Row>): (toc: seq<string>)
    ensures NoDuplicates(toc)
    ensures forall h :: h in toc <==> h in Headings(rows)
  {
    Dedup(Headings(rows))
  }

  /**
    The structure stage consults the model exactly when it has a document and that
    document has rows, and then shows it the query and the de-duplicated headings.
   */
  function StructureCall(s: State, store: Store): (r: Option<Call>)
    ensures r.Some? <==> ResolveDocument(s, store).Some? && RowsOf(store, ResolveDocument(s, store).value) != []
    ensures r.Some? ==> r.value.Ask? && r.value.request.SelectSections?
    ensures r.Some? ==> r.value.request.query == s.query
    ensures r.Some? ==> NoDuplicates(r.value.request.toc)
    ensures r.Some? ==> forall h :: h in r.value.request.toc <==>
      h in Headings(RowsOf(store, ResolveDocument(s, store).value))
  {
    match ResolveDocument(s, store)
    case None => None
    case Some(doc) =>
      var rows := RowsOf(store, doc);
      if rows == [] then None else Some(Ask(SelectSections(s.query, Toc(rows))))
  }

  /** The headings the model's reply selects: the array it parses to, else none. */
  function SelectedSections(parsed: Option<Json>): (sections: seq<string>)
    ensures parsed.Some? && parsed.value.JArray? ==> sections == parsed.value.items
    ensures !(parsed.Some? && parsed.value.JArray?) ==> sections == []
  {
    match parsed
    case Some(JArray(items)) => items
    case _ => []
  }

  /**
    `hierarchical_structure_node`.  Without a document or without rows it writes only
    an empty section list.  Otherwise it writes the selected headings (empty when the
    reply is not a JSON array, and NOT filtered against the table of contents), the
    resolved document id, and a retry count of 0.
   */
  function StructureNode(s: State, store: Store, reply: string, parse: string -> Option<Json>): (u: Update)
    ensures u.targetSections.Some?
    ensures u.retrievedChunks.None? && u.isValid.None? && u.finalResponse.None? && u.reviewFeedback.None?
    ensures StructureCall(s, store).None? ==> u == NoChange.(targetSections := Some([]))
    ensures StructureCall(s, store).Some? ==>
      && u.documentId == ResolveDocument(s, store)
      && u.retryCount == Some(0)
      && u.targetSections == Some(SelectedSections(parse(reply)))
  {
    match StructureCall(s, store)
    case None => NoChange.(targetSections := Some([]))
    case Some(_) =>
      NoChange.(targetSections := Some(SelectedSections(parse(reply))),
                documentId := ResolveDocument(s, store),
                retryCount := Some(0))
  }

  // ----- Retrieval: fetch the chunks under the selected headings -----

  /** The retrieval stage queries the store unless it has no sections or no document id. */
  function RetrievalCall(s: State): (r: Option<Call>)
    ensures r.None? <==> s.targetSections == [] || !Truthy(s.documentId)
    ensures r.Some? ==> r.value == FetchChunks(s.documentId.value, s.targetSections)
  {
    if s.targetSections == [] || !Truthy(s.documentId) then None
    else Some(FetchChunks(s.documentId.value, s.targetSections))
  }

  /** The rows of `rows` whose heading is one of `sections`, in store order. */
  function Filter(rows: seq<Row>, sections: seq<string>): (r: seq<Row>)
    ensures forall row :: row in r <==> row in rows && row.sectionHeading in sections
    ensures |r| <= |rows|
  {
    if rows == [] then []
    else
      var rest := Filter(rows[1..], sections);
      assert forall row :: row in rows <==> row == rows[0] || row in rows[1..];
      if rows[0].sectionHeading in sections then [rows[0]] + rest else rest
  }

  /**
    The retrieval query: the rows of `doc` under one of `sections`, or the error the
    store raises.
   */
  function Fetch(store: Store, doc: string, sections: seq<string>): (a: StoreAnswer)
    ensures a.StoreError? <==> store.fetchFails
    ensures a.Rows? ==> forall row :: row in a.rows <==> row in RowsOf(store, doc) && row.sectionHeading in sections
  {
    if store.fetchFails then StoreError else Rows(Filter(RowsOf(store, doc), sections))
  }

  /**
    `chunk_retrieval_node`: writes only the retrieved chunks, which are empty when no
    query was made or the query failed, and the query's rows otherwise.
   */
  function RetrievalNode(s: State, answer: StoreAnswer): (u: Update)
    ensures u.retrievedChunks.Some?
    ensures u == NoChange.(retrievedChunks := u.retrievedChunks)
    ensures RetrievalCall(s).None? || answer.StoreError? ==> u.retrievedChunks == Some([])
    ensures RetrievalCall(s).Some? && answer.Rows? ==> u.retrievedChunks == Some(answer.rows)
  {
    if RetrievalCall(s).None? then NoChange.(retrievedChunks := Some([]))
    else
      match answer
      case StoreError => NoChange.(retrievedChunks := Some([]))
      case Rows(rows) => NoChange.(retrievedChunks := Some(rows))
  }

  // ----- Validation: is the context sufficient? -----

  /**
    The validator's reading of a reply: "yes" exactly when the reply contains "yes"
    in any letter case; every other reply, malformed ones included, reads as "no".
   */
  function Classify(reply: string): (v: Verdict)
    ensures v == Yes <==> Contains(Lower(reply), "yes")
  {
    YesSurvivesStrip(reply);
    if Contains(Lower(Strip(reply)), "yes") then Yes else No
  }

  /** The validator consults the model exactly when there are chunks to judge. */
  function ValidationCall(s: State): (r: Option<Call>)
    ensures r.None? <==> s.retrievedChunks == []
    ensures r.Some? ==> r.value == Ask(JudgeSufficiency(s.query, s.retrievedChunks))
  {
    if s.retrievedChunks == [] then None else Some(Ask(JudgeSufficiency(s.query, s.retrievedChunks)))
  }

  /**
    `validation_node`: writes only the verdict; no chunks means "no", and otherwise
    the verdict is "yes" exactly when the reply contains "yes" (fail-closed).
   */
  function ValidationNode(s: State, reply: string): (u: Update)
    ensures u.isValid.Some?
    ensures u == NoChange.(isValid := u.isValid)
    ensures s.retrievedChunks == [] ==> u.isValid == Some(No)
    ensures u.isValid == Some(Yes) <==> s.retrievedChunks != [] && Contains(Lower(reply), "yes")
  {
    if s.retrievedChunks == [] then NoChange.(isValid := Some(No))
    else NoChange.(isValid := Some(Classify(reply)))
  }

  // ----- Formatting: draft the cited answer -----

  /**
    The drafting request: the query and chunks, plus the reviewer's feedback exactly
    when that feedback is truthy (present and non-empty).
   */
  function FormattingCall(s: State): (r: Call)
    ensures r.Ask? && r.request.DraftAnswer?
    ensures r.request.query == s.query && r.request.chunks == s.retrievedChunks
    ensures r.request.feedback.Some? <==> Truthy(s.reviewFeedback)
    ensures r.request.feedback.Some? ==> r.request.feedback == s.reviewFeedback
  {
    Ask(DraftAnswer(s.query, s.retrievedChunks, if Truthy(s.reviewFeedback) then s.reviewFeedback else None))
  }

  /**
    `response_formatting_node`: writes only the final response, which is whatever the
    reply parses to, or the raw reply as the answer with no citations when it does
    not parse.
   */
  function FormattingNode(s: State, reply: string, parse: string -> Option<Json>): (u: Update)
    ensures u.finalResponse.Some?
    ensures u == NoChange.(finalResponse := u.finalResponse)
    ensures parse(reply).None? ==> u.finalResponse == Some(JObject(None, None, Some(reply), Some([])))
    ensures parse(reply).Some? ==> u.finalResponse == parse(reply)
  {
    match parse(reply)
    case None => NoChange.(finalResponse := Some(JObject(None, None, Some(reply), Some([]))))
    case Some(j) => NoChange.(finalResponse := Some(j))
  }

  // ----- Quality review: grade the draft, with a retry ceiling -----

  /** The retry ceiling: from this many failed reviews on, the draft is accepted unread. */
  const MaxRetries := 2

  /** Whether `.get` can be called on the final response (absent reads as `{}`). */
  predicate IsDict(o: Option<Json>) {
    o.None? || o.value.JObject?
  }

  /** A grade that parsed to an object whose status is "fail". */
  predicate FailGrade(parsed: Option<Json>) {
    parsed.Some? && parsed.value.JObject? && parsed.value.status == Some("fail")
  }

  /**
    The reviewer consults the model exactly when the final response is a dictionary
    and fewer than two retries have been used, and shows it the answer (default "")
    and citations (default none).
   */
  function ReviewCall(s: State): (r: Option<Call>)
    ensures r.Some? <==> IsDict(s.finalResponse) && s.retryCount < MaxRetries
    ensures r.Some? ==> r.value.Ask? && r.value.request.GradeAnswer?
    ensures r.Some? && s.finalResponse.Some? ==>
      && r.value.request.answer == s.finalResponse.value.answer.GetOr("")
      && r.value.request.citations == s.finalResponse.value.citations.GetOr([])
  {
    if !IsDict(s.finalResponse) || s.retryCount >= MaxRetries then None
    else
      var response := s.finalResponse.GetOr(JObject(None, None, None, None));
      Some(Ask(GradeAnswer(response.answer.GetOr(""), response.citations.GetOr([]))))
  }

  /**
    `quality_review_node`.  Reading the final response raises when it is not a
    dictionary, and so does reading a grade that parsed to something other than an
    object.  Otherwise: at the ceiling, or when the grade does not parse, the draft is
    accepted (feedback `None`, count unchanged); a "fail" grade writes its feedback and
    one more retry; any other grade accepts.
   */
  function ReviewNode(s: State, reply: string, parse: string -> Option<Json>): (r: Outcome<Update>)
    ensures r.Raised? <==>
      !IsDict(s.finalResponse) || (s.retryCount < MaxRetries && parse(reply).Some? && !parse(reply).value.JObject?)
    ensures r.Done? ==> r.value.reviewFeedback.Some?
    ensures r.Done? ==> r.value == NoChange.(reviewFeedback := r.value.reviewFeedback, retryCount := r.value.retryCount)
    ensures r.Done? && (s.retryCount >= MaxRetries || parse(reply).None?) ==>
      r.value == NoChange.(reviewFeedback := Some(None))
    ensures r.Done? ==> (r.value.retryCount.Some? <==> s.retryCount < MaxRetries && FailGrade(parse(reply)))
    ensures r.Done? && r.value.retryCount.Some? ==>
      && r.value.retryCount == Some(s.retryCount + 1)
      && r.value.reviewFeedback == Some(parse(reply).value.feedback)
    ensures r.Done? && r.value.retryCount.None? ==> r.value.reviewFeedback == Some(None)
  {
    if !IsDict(s.finalResponse) then Raised
    else if s.retryCount >= MaxRetries then Done(NoChange.(reviewFeedback := Some(None)))
    else
      match parse(reply)
      case None => Done(NoChange.(reviewFeedback := Some(None)))
      case Some(grade) =>
        if !grade.JObject? then Raised
        else if grade.status == Some("fail") then
          Done(NoChange.(reviewFeedback := Some(grade.feedback), retryCount := Some(s.retryCount + 1)))
        else Done(NoChange.(reviewFeedback := Some(None)))
  }

  // ----- Insufficient information: the fixed refusal -----

  /** `insufficient_info_node`: writes only the fixed fallback response. */
  function InsufficientInfoNode(s: State): (u: Update)
    ensures u.finalResponse == Some(Fallback)
    ensures u == NoChange.(finalResponse := u.finalResponse)
  {
    NoChange.(finalResponse := Some(Fallback))
  }
}
