/**
  The compiled graph of lang_pipeline.py: the two routing functions, the edge table
  of `build_graph`, and a run of the graph from a node until it reaches `END` or a
  stage raises.  A run records every model call and every chunk query it makes, in
  order; the entry node's reads of the document list and of the headings are not
  recorded.
 */
module Graph {
  import opened Options
  import opened Agent
  import opened Nodes

  /** The graph's nodes, by the names `build_graph` registers them under. */
  datatype Node =
    | HierarchicalStructure
    | ChunkRetrieval
    | Validation
    | ResponseFormatting
    | QualityReview
    | InsufficientInfo

  /** Where an edge leads: another node or the graph's end. */
  datatype Target = Goto(node: Node) | End

  /** `decide_next_node`: drafting exactly when the validator said "yes". */
  function DecideNextNode(s: State): (n: Node)
    ensures n == ResponseFormatting || n == InsufficientInfo
    ensures n == ResponseFormatting <==> s.isValid == Some(Yes)
  {
    if s.isValid == Some(Yes) then ResponseFormatting else InsufficientInfo
  }

  /** `check_review_status`: back to drafting exactly when the feedback is truthy. */
  function CheckReviewStatus(s: State): (t: Target)
    ensures t == End || t == Goto(ResponseFormatting)
    ensures t == Goto(ResponseFormatting) <==> Truthy(s.reviewFeedback)
  {
    if Truthy(s.reviewFeedback) then Goto(ResponseFormatting) else End
  }

  /**
    The edge table, consulted on the state after a node's update is merged.  A run
    ends only after the insufficient-information node or after a review with no
    feedback; only the validator can route to the fallback, and only the reviewer
    can route back into drafting.
   */
  function Edge(n: Node, s: State): (t: Target)
    ensures t == End <==> n == InsufficientInfo || (n == QualityReview && !Truthy(s.reviewFeedback))
    ensures t == Goto(InsufficientInfo) <==> n == Validation && s.isValid != Some(Yes)
    ensures t == Goto(ResponseFormatting) <==>
      (n == Validation && s.isValid == Some(Yes)) || (n == QualityReview && Truthy(s.reviewFeedback))
    ensures t == Goto(QualityReview) <==> n == ResponseFormatting
  {
    match n
    case HierarchicalStructure => Goto(ChunkRetrieval)
    case ChunkRetrieval => Goto(Validation)
    case Validation => Goto(DecideNextNode(s))
    case ResponseFormatting => Goto(QualityReview)
    case QualityReview => CheckReviewStatus(s)
    case InsufficientInfo => End
  }

  /** The external call node `n` makes in state `s`, if any. */
  function CallOf(n: Node, s: State, store: Store): Option<Call> {
    match n
    case HierarchicalStructure => StructureCall(s, store)
    case ChunkRetrieval => RetrievalCall(s)
    case Validation => ValidationCall(s)
    case ResponseFormatting => Some(FormattingCall(s))
    case QualityReview => ReviewCall(s)
    case InsufficientInfo => None
  }

  /** Node `n`'s update given the model's reply (only the retrieval node queries the store). */
  function Apply(n: Node, s: State, env: Env, reply: string): Outcome<Update> {
    match n
    case HierarchicalStructure => Done(StructureNode(s, env.store, reply, env.parse))
    case ChunkRetrieval =>
      var answer := if RetrievalCall(s).Some? then Fetch(env.store, s.documentId.value, s.targetSections) else Rows([]);
      Done(RetrievalNode(s, answer))
    case Validation => Done(ValidationNode(s, reply))
    case ResponseFormatting => Done(FormattingNode(s, reply, env.parse))
    case QualityReview => ReviewNode(s, reply, env.parse)
    case InsufficientInfo => Done(InsufficientInfoNode(s))
  }

  /** The number of model calls in a trace; the next model reply is `oracle(Asks(trace))`. */
  function Asks(trace: seq<Call>): nat {
    if trace == [] then 0 else Asks(trace[..|trace| - 1]) + (if trace[|trace| - 1].Ask? then 1 else 0)
  }

  /** The number of answer drafts requested in a trace. */
  function Drafts(trace: seq<Call>): nat {
    if trace == [] then 0
    else Drafts(trace[..|trace| - 1]) + (if trace[|trace| - 1].Ask? && trace[|trace| - 1].request.DraftAnswer? then 1 else 0)
  }

  lemma CountsSnoc(trace: seq<Call>, c: Call)
    ensures Asks(trace + [c]) == Asks(trace) + (if c.Ask? then 1 else 0)
    ensures Drafts(trace + [c]) == Drafts(trace) + (if c.Ask? && c.request.DraftAnswer? then 1 else 0)
  {
    assert (trace + [c])[..|trace|] == trace;
  }

  /** The result of one node: go on to another node, stop at `END`, or crash. */
  datatype Move =
    | Continue(node: Node, state: State, trace: seq<Call>)
    | Stop(state: State, trace: seq<Call>)
    | Crash(trace: seq<Call>)

  /** The model's reply to node `n`'s call: the next scripted reply, if it asks the model. */
  function ReplyTo(n: Node, s: State, env: Env, trace: seq<Call>): string {
    var call := CallOf(n, s, env.store);
    if call.Some? && call.value.Ask? then env.oracle(Asks(trace)) else ""
  }

  /** One node: record its call, apply its update, follow the edge table. */
  function StepFrom(n: Node, s: State, env: Env, trace: seq<Call>): (m: Move)
    ensures CallOf(n, s, env.store).None? ==> m.trace == trace
    ensures CallOf(n, s, env.store).Some? ==> m.trace == trace + [CallOf(n, s, env.store).value]
  {
    var call := CallOf(n, s, env.store);
    var trace' := if call.Some? then trace + [call.value] else trace;
    match Apply(n, s, env, ReplyTo(n, s, env, trace))
    case Raised => Crash(trace')
    case Done(u) =>
      var s' := Merge(s, u);
      match Edge(n, s')
      case End => Stop(s', trace')
      case Goto(next) => Continue(next, s', trace')
  }

  /** Whether node `n` precedes the drafting loop. */
  function Stage(n: Node): nat {
    if n == HierarchicalStructure || n == ChunkRetrieval || n == Validation then 1 else 0
  }

  /** Reviews left before the ceiling, for the two nodes of the drafting loop. */
  function Budget(n: Node, s: State): nat {
    if (n == ResponseFormatting || n == QualityReview) && 0 <= s.retryCount <= MaxRetries
    then MaxRetries - s.retryCount else 0
  }

  /** How far `n` is from the end of its part of the graph. */
  function Rank(n: Node): nat {
    match n
    case HierarchicalStructure => 3
    case ChunkRetrieval => 2
    case Validation => 1
    case ResponseFormatting => 2
    case QualityReview => 1
    case InsufficientInfo => 0
  }

  /**
    What holds whenever a run entered from the start is about to execute node `n`:
    the retry count is within the ceiling; before the loop nothing has been drafted;
    the fallback is reached only without a "yes"; in the loop there has been one
    draft per failed review so far (plus the one under review).
   */
  predicate Reachable(n: Node, s: State, trace: seq<Call>) {
    && 0 <= s.retryCount <= MaxRetries
    && match n
       case HierarchicalStructure => s.retryCount == 0 && Drafts(trace) == 0
       case ChunkRetrieval => s.retryCount == 0 && Drafts(trace) == 0
       case Validation => s.retryCount == 0 && Drafts(trace) == 0
       case InsufficientInfo => s.isValid != Some(Yes) && Drafts(trace) == 0
       case ResponseFormatting => s.isValid == Some(Yes) && Drafts(trace) == s.retryCount
       case QualityReview =>
         s.isValid == Some(Yes) && Drafts(trace) == s.retryCount + 1 && s.finalResponse.Some?
  }

  /** What a finished run guarantees about its last state and its trace. */
  predicate Settled(s: State, trace: seq<Call>) {
    && s.finalResponse.Some?
    && 0 <= s.retryCount <= MaxRetries
    && Drafts(trace) <= MaxRetries + 1
    && (s.isValid == Some(Yes) <==> Drafts(trace) >= 1)
    && (s.isValid != Some(Yes) ==> s.finalResponse == Some(Fallback))
  }

  /** The measure the run decreases: (stage, reviews left, rank), lexicographically. */
  predicate Precedes(m: Node, sm: State, n: Node, s: State) {
    || Stage(m) < Stage(n)
    || (Stage(m) == Stage(n) && Budget(m, sm) < Budget(n, s))
    || (Stage(m) == Stage(n) && Budget(m, sm) == Budget(n, s) && Rank(m) < Rank(n))
  }

  /**
    What one node guarantees: the calls made before are kept, the retry count never
    goes down, a stop is settled, a crash has drafted at most three times, and a move to another node keeps `Reachable` and
    goes down in the measure.
   */
  predicate StepKeeps(n: Node, s: State, env: Env, trace: seq<Call>) {
    var m := StepFrom(n, s, env, trace);
    && trace <= m.trace
    && (m.Crash? ==> Drafts(m.trace) <= MaxRetries + 1)
    && (m.Stop? ==> Settled(m.state, m.trace) && s.retryCount <= m.state.retryCount)
    && (m.Continue? ==>
        && Reachable(m.node, m.state, m.trace)
        && s.retryCount <= m.state.retryCount
        && Precedes(m.node, m.state, n, s))
  }

  lemma StructureStep(s: State, env: Env, trace: seq<Call>)
    requires Reachable(HierarchicalStructure, s, trace)
    ensures StepKeeps(HierarchicalStructure, s, env, trace)
  {
    var call := StructureCall(s, env.store);
    if call.Some? {
      CountsSnoc(trace, call.value);
    }
  }

  lemma RetrievalStep(s: State, env: Env, trace: seq<Call>)
    requires Reachable(ChunkRetrieval, s, trace)
    ensures StepKeeps(ChunkRetrieval, s, env, trace)
  {
    var call := RetrievalCall(s);
    if call.Some? {
      CountsSnoc(trace, call.value);
    }
  }

  lemma ValidationStep(s: State, env: Env, trace: seq<Call>)
    requires Reachable(Validation, s, trace)
    ensures StepKeeps(Validation, s, env, trace)
  {
    var call := ValidationCall(s);
    if call.Some? {
      CountsSnoc(trace, call.value);
    }
  }

  lemma {:induction false} DraftStep(s: State, env: Env, trace: seq<Call>)
    requires Reachable(ResponseFormatting, s, trace)
    ensures StepKeeps(ResponseFormatting, s, env, trace)
  {
    CountsSnoc(trace, FormattingCall(s));
  }

  lemma {:induction false} ReviewStep(s: State, env: Env, trace: seq<Call>)
    requires Reachable(QualityReview, s, trace)
    ensures StepKeeps(QualityReview, s, env, trace)
  {
    var call := ReviewCall(s);
    if call.Some? {
      CountsSnoc(trace, call.value);
    }
  }

  /** Every node keeps the run's invariant and moves it forward. */
  lemma StepInvariant(n: Node, s: State, env: Env, trace: seq<Call>)
    requires Reachable(n, s, trace)
    ensures StepKeeps(n, s, env, trace)
  {
    match n
    case ResponseFormatting => DraftStep(s, env, trace);
    case QualityReview => ReviewStep(s, env, trace);
    case HierarchicalStructure => StructureStep(s, env, trace);
    case ChunkRetrieval => RetrievalStep(s, env, trace);
    case Validation => ValidationStep(s, env, trace);
    case InsufficientInfo =>
  }

  /** The outcome of running the graph: its final state, or the crash; with the calls made. */
  datatype RunResult = Finished(state: State, trace: seq<Call>) | Crashed(trace: seq<Call>)

  /**
    `app.invoke` from node `n`: the run always terminates, and it drafts at most
    three times whether it finishes or raises.  When it finishes it has a final
    response, a retry count within the ceiling that never went down, and the
    fallback response whenever the validator did not say "yes".  The calls made
    before are kept as a prefix of the trace.
   */
  function Run(n: Node, s: State, env: Env, trace: seq<Call>): (r: RunResult)
    requires Reachable(n, s, trace)
    ensures trace <= r.trace
    ensures r.Finished? ==> Settled(r.state, r.trace) && s.retryCount <= r.state.retryCount
    ensures r.Crashed? ==> Drafts(r.trace) <= MaxRetries + 1
    decreases Stage(n), Budget(n, s), Rank(n)
  {
    StepInvariant(n, s, env, trace);
    match StepFrom(n, s, env, trace)
    case Crash(t) => Crashed(t)
    case Stop(s', t) => Finished(s', t)
    case Continue(next, s', t) => Run(next, s', env, t)
  }

  /** The state `run_pipeline` starts with meets the run's invariant at the entry node. */
  lemma InitialReachable(query: string, documentId: Option<string>)
    ensures Reachable(HierarchicalStructure, InitialState(query, documentId), [])
  {
  }

  /**
    `run_pipeline`: run from the entry node on the initial state and return the final
    response; a run that raises has drafted at most three times too.
   */
  function RunPipeline(query: string, documentId: Option<string>, env: Env): (r: Outcome<Json>)
    ensures var run := Run(HierarchicalStructure, InitialState(query, documentId), env, []);
      && (r.Done? <==> run.Finished?)
      && (r.Done? ==> Some(r.value) == run.state.finalResponse)
      && Drafts(run.trace) <= MaxRetries + 1
      && (r.Done? ==> r.value == Fallback || run.state.isValid == Some(Yes))
  {
    match Run(HierarchicalStructure, InitialState(query, documentId), env, [])
    case Crashed(_) => Raised
    case Finished(s, _) => Done(s.finalResponse.value)
  }
}

/** Properties of whole runs of the graph. */
module Runs {
  import opened Options
  import opened Agent
  import opened Nodes
  import opened Graph

  /** The insufficient-information node ends the run with the fallback, asking nobody. */
  lemma InsufficientEnds(s: State, env: Env, trace: seq<Call>)
    requires Reachable(InsufficientInfo, s, trace)
    ensures Run(InsufficientInfo, s, env, trace) == Finished(s.(finalResponse := Some(Fallback)), trace)
  {
  }

  /**
    With no chunks retrieved, validation says "no" without asking the model and the
    run ends with the fallback response: no answer is ever drafted from no context.
   */
  lemma EmptyChunksFallback(s: State, env: Env, trace: seq<Call>)
    requires Reachable(Validation, s, trace)
    requires s.retrievedChunks == []
    ensures Run(Validation, s, env, trace) == Finished(s.(isValid := Some(No), finalResponse := Some(Fallback)), trace)
  {
    var s1 := s.(isValid := Some(No));
    assert StepFrom(Validation, s, env, trace) == Continue(InsufficientInfo, s1, trace);
    InsufficientEnds(s1, env, trace);
  }

  /**
    When the entry node finds no document, or a document without chunks, the run
    makes no model call and no chunk query, and `run_pipeline` returns the fallback
    response.
   */
  lemma NoStructureFallback(query: string, documentId: Option<string>, env: Env)
    requires var doc := ResolveDocument(InitialState(query, documentId), env.store);
      doc.None? || RowsOf(env.store, doc.value) == []
    ensures Run(HierarchicalStructure, InitialState(query, documentId), env, []) ==
      Finished(InitialState(query, documentId).(isValid := Some(No), finalResponse := Some(Fallback)), [])
    ensures RunPipeline(query, documentId, env) == Done(Fallback)
  {
    var s0 := InitialState(query, documentId);
    assert StepFrom(HierarchicalStructure, s0, env, []) == Continue(ChunkRetrieval, s0, []);
    assert StepFrom(ChunkRetrieval, s0, env, []) == Continue(Validation, s0, []);
    EmptyChunksFallback(s0, env, []);
  }

  /**
    The drafting loop cannot crash as long as every reply from the next one on is
    either unparseable or a JSON object: it then always ends, after at most the
    remaining reviews.
   */
  lemma {:induction false} LoopFinishes(n: Node, s: State, env: Env, trace: seq<Call>)
    requires Reachable(n, s, trace)
    requires n == ResponseFormatting || (n == QualityReview && IsDict(s.finalResponse))
    requires forall k: nat :: k >= Asks(trace) ==> IsDict(env.parse(env.oracle(k)))
    ensures Run(n, s, env, trace).Finished?
    decreases Budget(n, s), Rank(n)
  {
    StepInvariant(n, s, env, trace);
    var m := StepFrom(n, s, env, trace);
    var call := CallOf(n, s, env.store);
    if call.Some? {
      CountsSnoc(trace, call.value);
    }
    assert IsDict(env.parse(env.oracle(Asks(trace))));
    assert !m.Crash?;
    if m.Continue? {
      LoopFinishes(m.node, m.state, env, m.trace);
    }
  }

  /**
    A draft reply that parses to JSON other than an object (an array, a string, a
    number, `null`) becomes the final response, and the review then raises at the
    first `.get`, even when no retries are left.
   */
  lemma DraftNotObjectCrashes(s: State, env: Env, trace: seq<Call>)
    requires Reachable(ResponseFormatting, s, trace)
    requires var parsed := env.parse(env.oracle(Asks(trace))); parsed.Some? && !parsed.value.JObject?
    ensures Run(ResponseFormatting, s, env, trace) == Crashed(trace + [FormattingCall(s)])
  {
    var t1 := trace + [FormattingCall(s)];
    var s1 := s.(finalResponse := env.parse(env.oracle(Asks(trace))));
    CountsSnoc(trace, FormattingCall(s));
    assert StepFrom(ResponseFormatting, s, env, trace) == Continue(QualityReview, s1, t1);
    assert StepFrom(QualityReview, s1, env, t1) == Crash(t1);
  }

  /**
    A reply that fails review with non-empty feedback sends the run back to drafting
    with that feedback and one more retry.
   */
  lemma FailedReviewRetries(s: State, env: Env, trace: seq<Call>, fb: string)
    requires Reachable(QualityReview, s, trace) && IsDict(s.finalResponse) && s.retryCount < MaxRetries
    requires fb != ""
    requires env.parse(env.oracle(Asks(trace))).Some?
    requires var g := env.parse(env.oracle(Asks(trace))).value; g.JObject? && g.status == Some("fail") && g.feedback == Some(fb)
    ensures StepFrom(QualityReview, s, env, trace) ==
      Continue(ResponseFormatting, s.(reviewFeedback := Some(fb), retryCount := s.retryCount + 1), trace + [ReviewCall(s).value])
  {
  }

  /**
    A grade of "fail" whose feedback is missing or empty still uses up a retry, but
    `check_review_status` reads the empty feedback as a pass: the run ends and returns
    the draft that failed review.
   */
  lemma FailWithoutFeedbackEnds(s: State, env: Env, trace: seq<Call>)
    requires Reachable(QualityReview, s, trace) && IsDict(s.finalResponse) && s.retryCount < MaxRetries
    requires FailGrade(env.parse(env.oracle(Asks(trace))))
    requires !Truthy(env.parse(env.oracle(Asks(trace))).value.feedback)
    ensures var fb := env.parse(env.oracle(Asks(trace))).value.feedback;
      Run(QualityReview, s, env, trace) ==
      Finished(s.(reviewFeedback := fb, retryCount := s.retryCount + 1), trace + [ReviewCall(s).value])
  {
    StepInvariant(QualityReview, s, env, trace);
  }

  /** The draft read from the k-th model reply: the parsed reply, or the raw reply as the answer. */
  function DraftOf(env: Env, k: nat): Json {
    match env.parse(env.oracle(k))
    case None => JObject(None, None, Some(env.oracle(k)), Some([]))
    case Some(j) => j
  }

  /** The state after the drafting node wrote the draft read from the k-th model reply. */
  function Drafted(s: State, env: Env, k: nat): State {
    s.(finalResponse := Some(DraftOf(env, k)))
  }

  /** The k-th reply is a draft the review can read: unparseable, or a JSON object. */
  predicate UsableDraft(env: Env, k: nat) {
    IsDict(env.parse(env.oracle(k)))
  }

  /** The k-th reply is a "fail" grade whose feedback is non-empty. */
  predicate FailsWithFeedback(env: Env, k: nat) {
    FailGrade(env.parse(env.oracle(k))) && Truthy(env.parse(env.oracle(k)).value.feedback)
  }

  /** The feedback of a failing grade. */
  function FeedbackOf(env: Env, k: nat): string
    requires FailsWithFeedback(env, k)
  {
    env.parse(env.oracle(k)).value.feedback.value
  }

  /** The draft of round `i` of a loop whose first draft is reply `k0`. */
  predicate DraftOfRound(env: Env, k0: nat, i: nat) {
    UsableDraft(env, k0 + 2 * i)
  }

  /** The grade of round `i` of a loop whose first draft is reply `k0`. */
  predicate GradeOfRound(env: Env, k0: nat, i: nat) {
    FailsWithFeedback(env, k0 + 2 * i + 1)
  }

  /**
    A reviewing model that fails every draft it is shown, with feedback, in a loop
    whose first draft is reply `k0`; the drafting replies may be anything the review
    can read.
   */
  predicate FailingReviewer(env: Env, k0: nat) {
    && (forall i: nat :: i <= MaxRetries ==> DraftOfRound(env, k0, i))
    && (forall i: nat :: i < MaxRetries ==> GradeOfRound(env, k0, i))
  }

  /** A run that moves on from `n` is the run from where it moved to. */
  lemma RunContinues(n: Node, s: State, env: Env, trace: seq<Call>)
    requires Reachable(n, s, trace)
    requires StepFrom(n, s, env, trace).Continue?
    ensures var m := StepFrom(n, s, env, trace);
      Reachable(m.node, m.state, m.trace) && Run(n, s, env, trace) == Run(m.node, m.state, env, m.trace)
  {
    StepInvariant(n, s, env, trace);
  }

  /** Drafting from a readable reply moves on to a review of a draft that is a dictionary. */
  lemma {:induction false} DraftMoves(s: State, env: Env, trace: seq<Call>)
    requires Reachable(ResponseFormatting, s, trace)
    requires UsableDraft(env, Asks(trace))
    ensures var t1 := trace + [FormattingCall(s)];
      && StepFrom(ResponseFormatting, s, env, trace) == Continue(QualityReview, Drafted(s, env, Asks(trace)), t1)
      && IsDict(Drafted(s, env, Asks(trace)).finalResponse)
      && Asks(t1) == Asks(trace) + 1
      && Drafts(t1) == Drafts(trace) + 1
  {
    CountsSnoc(trace, FormattingCall(s));
  }

  /**
    A review below the ceiling that fails the draft with feedback sends the run back
    to drafting, keeping the invariant.
   */
  lemma {:induction false} ReviewSendsBack(s: State, env: Env, trace: seq<Call>)
    requires Reachable(QualityReview, s, trace) && IsDict(s.finalResponse) && s.retryCount < MaxRetries
    requires FailsWithFeedback(env, Asks(trace))
    ensures var s' := s.(reviewFeedback := Some(FeedbackOf(env, Asks(trace))), retryCount := s.retryCount + 1);
      var t' := trace + [ReviewCall(s).value];
      && Run(QualityReview, s, env, trace) == Run(ResponseFormatting, s', env, t')
      && Reachable(ResponseFormatting, s', t')
      && Asks(t') == Asks(trace) + 1
      && Drafts(t') == Drafts(trace)
  {
    CountsSnoc(trace, ReviewCall(s).value);
    FailedReviewRetries(s, env, trace, FeedbackOf(env, Asks(trace)));
    RunContinues(QualityReview, s, env, trace);
  }

  /**
    One round of the loop below the ceiling when the draft is readable and the
    reviewing model fails it with feedback: one draft, one review, and back to
    drafting with that feedback and one more retry.
   */
  lemma {:induction false} FailingRound(s: State, env: Env, trace: seq<Call>) returns (s': State, t': seq<Call>)
    requires Reachable(ResponseFormatting, s, trace) && s.retryCount < MaxRetries
    requires UsableDraft(env, Asks(trace)) && FailsWithFeedback(env, Asks(trace) + 1)
    ensures s' == Drafted(s, env, Asks(trace)).(reviewFeedback := Some(FeedbackOf(env, Asks(trace) + 1)), retryCount := s.retryCount + 1)
    ensures |t'| == |trace| + 2 && trace <= t'
    ensures Reachable(ResponseFormatting, s', t')
    ensures Asks(t') == Asks(trace) + 2 && Drafts(t') == Drafts(trace) + 1
    ensures Run(ResponseFormatting, s, env, trace) == Run(ResponseFormatting, s', env, t')
  {
    var s1 := Drafted(s, env, Asks(trace));
    var t1 := trace + [FormattingCall(s)];
    DraftMoves(s, env, trace);
    RunContinues(ResponseFormatting, s, env, trace);
    ReviewSendsBack(s1, env, t1);
    s' := s1.(reviewFeedback := Some(FeedbackOf(env, Asks(t1))), retryCount := s1.retryCount + 1);
    t' := t1 + [ReviewCall(s1).value];
  }

  /** At the ceiling, a readable draft is returned without asking the reviewing model. */
  lemma {:induction false} CeilingRound(s: State, env: Env, trace: seq<Call>)
    requires Reachable(ResponseFormatting, s, trace) && s.retryCount == MaxRetries
    requires UsableDraft(env, Asks(trace))
    ensures Run(ResponseFormatting, s, env, trace) ==
      Finished(Drafted(s, env, Asks(trace)).(reviewFeedback := None), trace + [FormattingCall(s)])
  {
    var s1 := Drafted(s, env, Asks(trace));
    var t1 := trace + [FormattingCall(s)];
    DraftMoves(s, env, trace);
    RunContinues(ResponseFormatting, s, env, trace);
    assert StepFrom(QualityReview, s1, env, t1) == Stop(s1.(reviewFeedback := None), t1);
  }

  /**
    Against a reviewing model that fails every draft with feedback, the loop runs
    until the ceiling: it finishes with the retry count at the ceiling, three drafts
    in all, and returns the last draft unreviewed.
   */
  lemma {:induction false} FailingReviewerExhausts(s: State, env: Env, trace: seq<Call>, k0: nat)
    requires Reachable(ResponseFormatting, s, trace)
    requires Asks(trace) == k0 + 2 * s.retryCount
    requires FailingReviewer(env, k0)
    ensures var r := Run(ResponseFormatting, s, env, trace);
      && r.Finished?
      && r.state.retryCount == MaxRetries
      && r.state.reviewFeedback == None
      && r.state.finalResponse == Some(DraftOf(env, k0 + 2 * MaxRetries))
      && Drafts(r.trace) == MaxRetries + 1
      && Asks(r.trace) == k0 + 2 * MaxRetries + 1
      && |r.trace| == |trace| + 2 * (MaxRetries - s.retryCount) + 1
    decreases MaxRetries - s.retryCount
  {
    assert DraftOfRound(env, k0, s.retryCount);
    if s.retryCount == MaxRetries {
      CeilingRound(s, env, trace);
      CountsSnoc(trace, FormattingCall(s));
    } else {
      assert GradeOfRound(env, k0, s.retryCount);
      var s', t' := FailingRound(s, env, trace);
      FailingReviewerExhausts(s', env, t', k0);
    }
  }

  /**
    Entering the loop with no retries used, against a reviewing model that fails
    every draft with feedback: three drafts, two reviews, and the third draft is
    returned with the retry count at 2.
   */
  lemma {:induction false} AlwaysFailingReviewer(s: State, env: Env, trace: seq<Call>)
    requires Reachable(ResponseFormatting, s, trace) && s.retryCount == 0
    requires FailingReviewer(env, Asks(trace))
    ensures var r := Run(ResponseFormatting, s, env, trace);
      && r.Finished?
      && r.state.retryCount == 2
      && r.state.finalResponse == Some(DraftOf(env, Asks(trace) + 4))
      && Drafts(r.trace) == Drafts(trace) + 3
      && Asks(r.trace) == Asks(trace) + 5
      && |r.trace| == |trace| + 5
  {
    assert Drafts(trace) == 0;
    FailingReviewerExhausts(s, env, trace, Asks(trace));
  }
}
