# Clinical-guideline retrieval workflow, modelled in Dafny

This project models the pure logic of a clinical-guideline question-answering
service that uses no vector index. It has two parts.

1. **The retrieval-and-refinement workflow** of `lang_pipeline.py`. A six-node graph shares
   one record (`AgentState`):
   - *hierarchical structure* asks the model which headings of the document's table of contents are relevant;
   - *chunk retrieval* fetches the chunks under those headings;
   - *validation* is a yes/no gate on whether the context suffices;
   - *response formatting* drafts a cited answer;
   - *quality review* grades the draft and may send it back, at most twice;
   - *insufficient info* returns a fixed refusal.

   Every node is a pure function from the state and one external answer to a
   partial update. The external answer is a model reply, a store result or a store
   error. The driver `Graph.Run` merges each update into the state and follows
   the edge table of `build_graph`. Its termination measure is
   (pre-loop stage, reviews left before the ceiling, distance to the end of the stage).
2. **Ingestion-side text logic** of `pipeline.py`:
   - `chunk_by_headings` splits a document at its headings;
   - the loop in `process_document` groups the chunks into chapters at level-1 headings.

Modules:
- `Options`, `Seqs`: option and outcome types; de-duplication that keeps first occurrences.
- `Text`: Python's `str.strip` (white space as `str.isspace` defines it), `str.lower` on ASCII letters, and substring search.
- `Chunking`: Python slicing with clamped and negative indices; `chunk_by_headings`.
- `Chapters`: the chapter-grouping loop, plus an independent description of its result.
- `Agent`: the state, the partial updates and their merge, the model requests, the store, and the fallback response.
- `Nodes`: the six nodes. `XCall` is the call a node makes; `XNode` is the update it returns.
- `Graph`, `Runs`: routing, the edge table, the run driver, and properties of whole runs.

External collaborators are parameters of `Agent.Env`:
- The language model is `oracle: nat -> string`, the reply to the k-th model call of a run.
- Reading a reply as JSON (after code fences are removed) is `parse: string -> Option<Json>`.
  `Json` keeps only the shapes the workflow distinguishes: an array of strings, an object with
  `status`/`feedback`/`answer`/`citations`, or any other value.
- The store is a map from document id to rows, plus the default document and whether the
  retrieval query fails.

A run records every model call and every chunk query it makes, so properties such as
"no model call" and "at most three drafts" are statements about the trace. The entry
node's two store reads (the default document and the document's headings) are not
recorded; their results come from the store map.

Two properties one might expect do not hold of the code, and the model follows the code.
- The code does not filter the model's selection against the table of contents
  (lang_pipeline.py:80-91), even though its prompt asks for exact headings from it
  (lang_pipeline.py:64). So no subset property is proved.
- `quality_review_node` calls `.get` on the draft and on the grade (lang_pipeline.py:190, 226).
  This raises `AttributeError` when either parsed to JSON other than an object, and the
  error escapes `run_pipeline`. The model keeps this as an `Outcome.Raised` result:
  - `Runs.DraftNotObjectCrashes` shows the crash;
  - `Runs.LoopFinishes` shows the loop always finishes when replies are well shaped;
  - `Graph.Run` bounds the drafts of a run that raises as well as of one that finishes.

## Model

| member | source | states |
|---|---|---|
| Seqs.Dedup | lang_pipeline.py:57 | the heading list shown to the model has no repeats and loses no heading |
| Nodes.Toc | lang_pipeline.py:57 | the table of contents holds each heading of the document's rows exactly once |
| Nodes.ResolveDocument | lang_pipeline.py:39-49 | a truthy document id is used as given; otherwise the store's first document (or none) is used |
| Nodes.StructureCall | lang_pipeline.py:44-78 | the model is asked to select headings exactly when a document was resolved and it has rows; the request carries the query and the de-duplicated headings |
| Nodes.SelectedSections | lang_pipeline.py:80-87 | a reply that parses to a JSON array gives that array; an unparseable or non-array reply gives no sections |
| Nodes.StructureNode | lang_pipeline.py:36-91 | with no document or no rows only an empty section list is written; otherwise the selection, the resolved document id and a retry count of 0 are written, without filtering against the table of contents |
| Nodes.RetrievalCall | lang_pipeline.py:97-101 | the store is queried exactly when there are selected sections and a truthy document id |
| Nodes.Fetch | lang_pipeline.py:106-113 | a store failure is an error; otherwise the rows returned are exactly the document's rows whose heading was selected |
| Nodes.RetrievalNode | lang_pipeline.py:95-118 | only the chunks are written: empty when no query was made or the query failed, the query's rows otherwise |
| Nodes.Classify | lang_pipeline.py:139-144 | a reply reads as "yes" exactly when its lower-cased text contains "yes"; stripping it first makes no difference; everything else is "no" (fail-closed) |
| Nodes.ValidationCall | lang_pipeline.py:125-138 | the model is consulted exactly when there are chunks, about the query and those chunks |
| Nodes.ValidationNode | lang_pipeline.py:122-147 | only the verdict is written; no chunks gives "no"; the verdict is "yes" exactly when there are chunks and the reply contains "yes" |
| Nodes.FormattingCall | lang_pipeline.py:151-172 | the drafting request carries the query and chunks, and carries the reviewer's feedback exactly when it is truthy |
| Nodes.FormattingNode | lang_pipeline.py:174-183 | only the final response is written: the parsed reply, or the raw reply as answer with no citations when it does not parse |
| Nodes.ReviewCall | lang_pipeline.py:189-217 | the reviewing model is consulted exactly when the draft is a dictionary and fewer than two retries were used, about the draft's answer and citations |
| Nodes.ReviewNode | lang_pipeline.py:187-234 | raises exactly when the draft, or a parsed grade below the ceiling, is not an object; at the ceiling or on an unparseable grade it accepts with the count unchanged; a "fail" grade writes its feedback and one more retry; any other grade accepts |
| Nodes.InsufficientInfoNode | lang_pipeline.py:254-260 | only the final response is written, and it is the fixed fallback answer with no citations |
| Graph.DecideNextNode | lang_pipeline.py:238-242 | validation routes to drafting exactly when the verdict is "yes", and to the fallback otherwise |
| Graph.CheckReviewStatus | lang_pipeline.py:244-252 | review routes back to drafting exactly when the feedback is truthy, and ends otherwise |
| Graph.Edge | lang_pipeline.py:275-303 | a run ends only after the fallback or after a review without feedback; only validation leads to the fallback; only validation and review lead into drafting; drafting always leads to review |
| Graph.StepFrom | lang_pipeline.py:263-305 | each node appends exactly the model call or chunk query it makes to the trace, and nothing when it makes none |
| Graph.StepInvariant | lang_pipeline.py:187-234 | every node keeps the reachability invariant, never lowers the retry count, and strictly lowers the termination measure; a run that stops is settled |
| Graph.Run | lang_pipeline.py:263-305 | a run always terminates and drafts at most three times, whether it finishes or raises; when it finishes there is a final response, a retry count in 0..2 that never went down, "yes" exactly when something was drafted, and the fallback whenever the verdict was not "yes" |
| Graph.RunPipeline | lang_pipeline.py:310-321 | from the initial state, a finished run returns its final response, which is the fallback unless validation said "yes"; a run that raises returns nothing; either way at most three drafts are made |
| Agent.Merge | lang_pipeline.py:263-305 | merging a node's returned dictionary never touches the query, replaces exactly the keys the node wrote, and keeps the rest; an empty update changes nothing |
| Agent.MergeIdempotent | lang_pipeline.py:263-305 | merging the same update twice is merging it once |
| Agent.MergeOverwrites | lang_pipeline.py:263-305 | a later update that writes every key an earlier one wrote hides the earlier one |
| Agent.InitialState | lang_pipeline.py:314-319 | the run starts with the query and document id as given, a retry count of 0 and no feedback; the other keys are unwritten and read as their defaults |
| Graph.InitialReachable | lang_pipeline.py:314-320 | the initial state meets the run's invariant at the entry node, so every guarantee of `Graph.Run` applies to `run_pipeline` |
| Runs.InsufficientEnds | lang_pipeline.py:254-260 | the fallback node ends the run with the fallback response and no further call |
| Runs.EmptyChunksFallback | lang_pipeline.py:127-128 | with no chunks, validation says "no" without consulting the model, and the run ends with the fallback |
| Runs.NoStructureFallback | lang_pipeline.py:44-55 | with no document or no rows, a whole run makes no model call and no chunk query and returns the fallback |
| Runs.LoopFinishes | lang_pipeline.py:186-234 | the drafting loop never crashes and always finishes when every reply from then on is unparseable or a JSON object |
| Runs.DraftNotObjectCrashes | lang_pipeline.py:174-191 | a draft that parses to JSON other than an object becomes the final response, and the review then raises |
| Runs.FailedReviewRetries | lang_pipeline.py:226-231 | a "fail" grade with non-empty feedback sends the run back to drafting with that feedback and one more retry |
| Runs.FailWithoutFeedbackEnds | lang_pipeline.py:226-252 | a "fail" grade with missing or empty feedback still uses up a retry, yet the run ends and returns the draft that failed |
| Runs.CeilingRound | lang_pipeline.py:186-197 | at two retries a draft the review can read (unparseable, or an object) is returned without consulting the reviewing model, with the feedback cleared |
| Runs.FailingRound | lang_pipeline.py:151-234 | below the ceiling, a readable draft that the reviewing model fails with feedback costs one draft and one review, and leads back to drafting with that feedback and one more retry |
| Runs.FailingReviewerExhausts | lang_pipeline.py:192-252 | when the reviewing model fails every draft with feedback, and whatever the drafting replies are as long as the review can read them, the loop ends at the ceiling with three drafts in all and returns the last draft unreviewed |
| Runs.AlwaysFailingReviewer | lang_pipeline.py:192-197 | entering the loop with no retries used against a reviewing model that always fails, the loop makes three drafts and two reviews and returns the third draft with the retry count at 2 |
| Text.LowerLetters | lang_pipeline.py:139 | after `lower` no upper-case ASCII letter is left, and every character is either kept or is the lower case of the letter it replaced |
| Text.LowerIdempotent | lang_pipeline.py:139 | lower-casing twice is lower-casing once |
| Text.ContainsAsSlice | lang_pipeline.py:141 | `sub in s` holds exactly when some piece of `s` equals `sub` |
| Text.Strip | pipeline.py:37 | `strip` keeps one contiguous piece of the text, cuts only white space on either side, and leaves no white space at either end |
| Text.StripIdempotent | pipeline.py:37 | stripping a stripped text changes nothing |
| Text.StripKeepsWord | lang_pipeline.py:139-141 | a word with no white space at its ends occurs in the stripped, lower-cased reply exactly when it occurs in the lower-cased reply |
| Text.YesSurvivesStrip | lang_pipeline.py:139-141 | the validator's "yes" test gives the same answer with or without stripping |
| Chunking.PySlice | pipeline.py:37 | Python's slice is a contiguous piece starting at the normalised start; it is the plain slice when the bounds are in order and in range, and empty when the end does not lie after the start |
| Chunking.ChunkByHeadings | pipeline.py:29-46 | one chunk per heading, in heading order; chunk i carries heading i's text and level, position i, and the stripped text from heading i's start to the next heading's start (the end of the text for the last heading) |
| Chunking.SectionsTileText | pipeline.py:33-37 | with start positions in range and in order, the raw sections glued together are exactly the text from the first heading on |
| Chapters.Step | pipeline.py:108-114 | one iteration keeps the chapter dictionary well formed: the current chapter is a key, and the insertion order lists each key once |
| Chapters.GroupChapters | pipeline.py:104-114 | the grouping loop yields a well-formed chapter dictionary |
| Chapters.GroupChaptersDescribed | pipeline.py:104-114 | the chapters are exactly the level-1 headings; each chapter holds the chunks from the last level-1 chunk of that name up to the next level-1 chunk; the empty heading's chapter stays empty |
| Chapters.GroupChaptersOrder | pipeline.py:104-114 | the dictionary's insertion order lists each level-1 heading once, in the order of its first occurrence |
| Chapters.LeadingChunksInNoChapter | pipeline.py:106-114 | chunks before the first level-1 chunk are in no chapter and do not affect the result |
| Chapters.ReopeningReplaces | pipeline.py:109-111 | a level-1 heading that repeats an earlier chapter's name replaces that chapter's list with one holding just itself, leaves other chapters alone, and keeps the chapter's first position in the order |
| Chapters.ChapterShape | pipeline.py:108-114 | every chapter with a non-empty name starts with the level-1 chunk that named it, and all its other chunks are below level 1 |

## Left out

- Language-model calls and prompt wording: the model is a scripted sequence of replies (`Env.oracle`), and a request records only the data a prompt is built from.
- A model call that raises (network or API errors in `llm.invoke` and `chain.invoke` at lang_pipeline.py:78, 138, 172 and 217, outside every `try`) is not modelled: `Env.oracle` always answers, so a run ends in `Crashed` only through the review's `.get`.
- JSON parsing and code-fence removal: `Env.parse` is an uninterpreted reader into the few shapes the workflow tells apart. JSON arrays of non-strings and non-string feedback values are not represented.
- Review feedback and draft fields that are present but `null` are treated like absent keys. This matters only for prompt text (`.get` returns `None`, not the default), which is not modelled.
- The store: Supabase queries become the `Store` map. The trace does not record the entry node's reads of the default document (lang_pipeline.py:45) and of the document's headings (lang_pipeline.py:51), only the chunk query. Only the retrieval query can fail; other store errors and the order of the default-document lookup are not modelled.
- Nodes.Toc: keeps headings in first-occurrence order, whereas `list(set(...))` has no specified order. Only the set of headings and the absence of repeats are stated.
- Text.Lower: lower-cases ASCII letters only; Python's `str.lower` also maps non-ASCII letters. The "yes" test is unaffected, because no non-ASCII character lower-cases to `y`, `e` or `s`.
- `print` logging, the LangGraph framework (the edge table is encoded directly), and the module-level model client.
- `detect_headings` (including its `eval` of a model reply), `summarize_chunk`, `create_chapter_summary`, file reading and database writes in `pipeline.py`: I/O around the chunking and grouping logic.
- `config.py`, `main.py`, the routers, `documents_service.py`, `search_service.py` and `supabase_client.py`: HTTP and database plumbing, not part of this model.
- Concurrency: runs are sequential and share no state.
