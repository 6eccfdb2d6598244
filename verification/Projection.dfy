/** The API's job rows and what the three kinds of worker messages do to them. */
module Projection {
  import opened Options

  type JobId = string
  type Time = nat

  datatype State = Queued | Processing | Succeeded | Failed

  datatype Row = Row(
    state: State,
    markdownPath: Option<string>,
    chunksPath: Option<string>,
    tokensUsed: Option<nat>,
    charsUsed: Option<nat>,
    chunkCount: Option<nat>,
    errorMessage: Option<string>,
    createdAt: Time,
    startedAt: Option<Time>,
    completedAt: Option<Time>,
    llm: LlmRow)

  /** The LLM columns; `state` is empty for a job without a profile. */
  datatype LlmRow = LlmRow(
    state: Option<State>,
    provider: Option<string>,
    artifactPath: Option<string>,
    chunkCount: Option<nat>,
    vectorCount: Option<nat>,
    errorMessage: Option<string>,
    completedAt: Option<Time>)

  /** Decoded message bodies: the fields the projection reads. An absent `job_id` is the empty string. */
  datatype Extraction = Extraction(
    jobId: JobId,
    status: string,
    markdownPath: Option<string>,
    chunksPath: Option<string>,
    totalTokens: Option<nat>,
    totalChars: Option<nat>,
    chunkCount: Option<nat>,
    error: Option<string>)

  datatype LlmResult = LlmResult(
    extractJobId: JobId,
    status: string,
    provider: Option<string>,
    artifactPath: Option<string>,
    chunkCount: Option<nat>,
    vectorCount: Option<nat>,
    error: Option<string>)

  datatype Message =
    | LifecycleMsg(jobId: JobId, state: string, occurredAt: Option<Time>)
    | ExtractionMsg(result: Extraction)
    | LlmMsg(llmResult: LlmResult)

  /** The job a message is about. */
  function Target(m: Message): JobId {
    match m
    case LifecycleMsg(j, _, _) => j
    case ExtractionMsg(r) => r.jobId
    case LlmMsg(r) => r.extractJobId
  }

  function NewRow(llmProfile: Option<string>, now: Time): Row {
    var llmState := if llmProfile.Some? && llmProfile.value != "" then Some(Queued) else None;
    Row(Queued, None, None, None, None, None, None, now, None, None, LlmRow(llmState, None, None, None, None, None, None))
  }

  // ----- One message on one row -----

  function ApplyLifecycle(row: Row, state: string, occurredAt: Option<Time>, now: Time): Row {
    if state == "processing" && row.state == Queued then
      row.(state := Processing,
           startedAt := if row.startedAt.Some? then row.startedAt else if occurredAt.Some? then occurredAt else Some(now))
    else row
  }

  function ApplyExtraction(row: Row, r: Extraction, now: Time): Row {
    row.(state := if r.status == "ok" then Succeeded else Failed,
         markdownPath := r.markdownPath,
         chunksPath := r.chunksPath,
         tokensUsed := r.totalTokens,
         charsUsed := r.totalChars,
         chunkCount := r.chunkCount,
         errorMessage := r.error,
         startedAt := if row.startedAt.Some? then row.startedAt else Some(row.createdAt),
         completedAt := Some(now))
  }

  function ApplyLlm(row: Row, r: LlmResult, now: Time): Row {
    row.(llm := LlmRow(Some(if r.status == "ok" then Succeeded else Failed), r.provider, r.artifactPath,
                       r.chunkCount, r.vectorCount, r.error, Some(now)))
  }

  function ApplyToRow(row: Row, m: Message, now: Time): Row {
    match m
    case LifecycleMsg(_, state, occurredAt) => ApplyLifecycle(row, state, occurredAt, now)
    case ExtractionMsg(r) => ApplyExtraction(row, r, now)
    case LlmMsg(r) => ApplyLlm(row, r, now)
  }

  /** One message on the table. A message without a job id, or about an unknown job, changes nothing. */
  function Apply(jobs: map<JobId, Row>, m: Message, now: Time): map<JobId, Row> {
    var j := Target(m);
    if j == "" || j !in jobs then jobs else jobs[j := ApplyToRow(jobs[j], m, now)]
  }

  datatype Arrival = Arrival(msg: Message, now: Time)

  function ApplyAll(jobs: map<JobId, Row>, ms: seq<Arrival>): map<JobId, Row> {
    if ms == [] then jobs
    else
      var last := ms[|ms| - 1];
      Apply(ApplyAll(jobs, ms[..|ms| - 1]), last.msg, last.now)
  }

  // ----- Confluence -----

  /** The row without its timestamps. */
  datatype Content = Content(
    state: State,
    markdownPath: Option<string>,
    chunksPath: Option<string>,
    tokensUsed: Option<nat>,
    charsUsed: Option<nat>,
    chunkCount: Option<nat>,
    errorMessage: Option<string>,
    llm: LlmRow)

  function ContentOf(row: Row): Content {
    Content(row.state, row.markdownPath, row.chunksPath, row.tokensUsed, row.charsUsed, row.chunkCount,
            row.errorMessage, row.llm.(completedAt := None))
  }

  function LastExtraction(ms: seq<Arrival>, j: JobId): Option<Extraction> {
    if ms == [] then None
    else match ms[|ms| - 1].msg
      case ExtractionMsg(r) => if r.jobId == j then Some(r) else LastExtraction(ms[..|ms| - 1], j)
      case _ => LastExtraction(ms[..|ms| - 1], j)
  }

  function LastLlm(ms: seq<Arrival>, j: JobId): Option<LlmResult> {
    if ms == [] then None
    else match ms[|ms| - 1].msg
      case LlmMsg(r) => if r.extractJobId == j then Some(r) else LastLlm(ms[..|ms| - 1], j)
      case _ => LastLlm(ms[..|ms| - 1], j)
  }

  predicate StartsProcessing(m: Message, j: JobId) {
    m.LifecycleMsg? && m.jobId == j && m.state == "processing"
  }

  predicate SawProcessing(ms: seq<Arrival>, j: JobId) {
    exists i :: 0 <= i < |ms| && StartsProcessing(ms[i].msg, j)
  }

  /** What the row must hold, column by column, read off three facts about the messages and nothing else. */
  function Expected(initial: Row, ext: Option<Extraction>, llm: Option<LlmResult>, sawProcessing: bool): Content {
    Content(
      if ext.Some? then (if ext.value.status == "ok" then Succeeded else Failed)
      else if sawProcessing && initial.state == Queued then Processing else initial.state,
      if ext.Some? then ext.value.markdownPath else initial.markdownPath,
      if ext.Some? then ext.value.chunksPath else initial.chunksPath,
      if ext.Some? then ext.value.totalTokens else initial.tokensUsed,
      if ext.Some? then ext.value.totalChars else initial.charsUsed,
      if ext.Some? then ext.value.chunkCount else initial.chunkCount,
      if ext.Some? then ext.value.error else initial.errorMessage,
      if llm.Some? then
        LlmRow(Some(if llm.value.status == "ok" then Succeeded else Failed), llm.value.provider, llm.value.artifactPath,
               llm.value.chunkCount, llm.value.vectorCount, llm.value.error, None)
      else initial.llm.(completedAt := None))
  }

  /**
    Under any interleaving and duplication the row depends, timestamps aside, only on the last
    extraction result, the last LLM result and whether a processing event came.
   */
  lemma {:induction false} ProjectionIsConfluent(jobs: map<JobId, Row>, ms: seq<Arrival>, j: JobId)
    requires j != "" && j in jobs
    ensures j in ApplyAll(jobs, ms)
    ensures ContentOf(ApplyAll(jobs, ms)[j]) == Expected(jobs[j], LastExtraction(ms, j), LastLlm(ms, j), SawProcessing(ms, j))
    ensures LastExtraction(ms, j).Some? ==> ApplyAll(jobs, ms)[j].state in {Succeeded, Failed}
    decreases |ms|
  {
    if ms == [] {
    } else {
      var init, last := ms[..|ms| - 1], ms[|ms| - 1];
      ProjectionIsConfluent(jobs, init, j);
      SawProcessingSnoc(init, last, j);
      assert ms == init + [last];
    }
  }

  lemma SawProcessingSnoc(init: seq<Arrival>, last: Arrival, j: JobId)
    ensures SawProcessing(init + [last], j) <==> SawProcessing(init, j) || StartsProcessing(last.msg, j)
  {
    var ms := init + [last];
    assert ms[|init|] == last;
    assert forall i :: 0 <= i < |init| ==> ms[i] == init[i];
    if SawProcessing(init, j) {
      var i :| 0 <= i < |init| && StartsProcessing(init[i].msg, j);
      assert StartsProcessing(ms[i].msg, j);
    }
  }

  /** Two histories that agree on those three facts leave the same row, timestamps aside. */
  lemma {:induction false} SameFactsSameRow(jobs: map<JobId, Row>, ms: seq<Arrival>, ms': seq<Arrival>, j: JobId)
    requires j != "" && j in jobs
    requires LastExtraction(ms, j) == LastExtraction(ms', j) && LastLlm(ms, j) == LastLlm(ms', j)
    requires SawProcessing(ms, j) == SawProcessing(ms', j)
    ensures j in ApplyAll(jobs, ms) && j in ApplyAll(jobs, ms')
    ensures ContentOf(ApplyAll(jobs, ms)[j]) == ContentOf(ApplyAll(jobs, ms')[j])
  {
    ProjectionIsConfluent(jobs, ms, j);
    ProjectionIsConfluent(jobs, ms', j);
  }

  /** The LLM columns are those of the last LLM result; without one they are the initial ones. */
  lemma LlmColumnsTell(jobs: map<JobId, Row>, ms: seq<Arrival>, j: JobId)
    requires j != "" && j in jobs
    ensures j in ApplyAll(jobs, ms)
    ensures var row := ApplyAll(jobs, ms)[j].llm;
      match LastLlm(ms, j)
      case Some(r) =>
        && row.state == Some(if r.status == "ok" then Succeeded else Failed)
        && row.provider == r.provider && row.artifactPath == r.artifactPath
        && row.chunkCount == r.chunkCount && row.vectorCount == r.vectorCount && row.errorMessage == r.error
      case None => row.(completedAt := None) == jobs[j].llm.(completedAt := None)
  {
    ProjectionIsConfluent(jobs, ms, j);
  }

  // ----- What never changes back -----

  predicate Terminal(s: State) {
    s == Succeeded || s == Failed
  }

  /** From one row to a later one: terminal stays terminal, a start time stays, no job is created or lost. */
  predicate Advances(before: Row, after: Row) {
    && (Terminal(before.state) ==> Terminal(after.state))
    && (before.state == Processing ==> after.state != Queued)
    && (before.startedAt.Some? ==> after.startedAt == before.startedAt)
    && after.createdAt == before.createdAt
  }

  lemma ApplyAdvances(jobs: map<JobId, Row>, m: Message, now: Time)
    ensures Apply(jobs, m, now).Keys == jobs.Keys
    ensures forall j :: j in jobs ==> Advances(jobs[j], Apply(jobs, m, now)[j])
    ensures forall j :: j in jobs && j != Target(m) ==> Apply(jobs, m, now)[j] == jobs[j]
  {
  }

  /** However many messages follow, an earlier row never regresses. */
  lemma {:induction false} HistoryAdvances(jobs: map<JobId, Row>, ms: seq<Arrival>, j: JobId)
    requires j in jobs
    ensures j in ApplyAll(jobs, ms) && Advances(jobs[j], ApplyAll(jobs, ms)[j])
    decreases |ms|
  {
    if ms != [] {
      HistoryAdvances(jobs, ms[..|ms| - 1], j);
      ApplyAdvances(ApplyAll(jobs, ms[..|ms| - 1]), ms[|ms| - 1].msg, ms[|ms| - 1].now);
    }
  }

  // ----- The times -----

  /** A result, of the extraction or of the LLM worker, for the job. */
  predicate Ends(m: Message, j: JobId, llm: bool) {
    Target(m) == j && if llm then m.LlmMsg? else m.ExtractionMsg?
  }

  /** A row ended when its last result was projected. */
  lemma {:induction false} LastResultTellsTheEnd(jobs: map<JobId, Row>, ms: seq<Arrival>, j: JobId, i: nat, llm: bool)
    requires j != "" && j in jobs && i < |ms| && Ends(ms[i].msg, j, llm)
    requires forall k :: i < k < |ms| ==> !Ends(ms[k].msg, j, llm)
    ensures j in ApplyAll(jobs, ms)
    ensures var row := ApplyAll(jobs, ms)[j];
      (if llm then row.llm.completedAt else row.completedAt) == Some(ms[i].now)
    decreases |ms|
  {
    var init := ms[..|ms| - 1];
    HistoryAdvances(jobs, init, j);
    if i < |init| {
      assert init[i] == ms[i] && forall k :: i < k < |init| ==> init[k] == ms[k];
      LastResultTellsTheEnd(jobs, init, j, i, llm);
    }
  }

  /** A start, or a result that came without one. */
  predicate Begins(m: Message, j: JobId) {
    StartsProcessing(m, j) || Ends(m, j, false)
  }

  lemma {:induction false} NothingBegun(profile: Option<string>, created: Time, ms: seq<Arrival>, j: JobId)
    requires j != "" && forall k :: 0 <= k < |ms| ==> !Begins(ms[k].msg, j)
    ensures var jobs := ApplyAll(map[j := NewRow(profile, created)], ms);
      j in jobs && jobs[j].state == Queued && jobs[j].startedAt == None && jobs[j].createdAt == created
    decreases |ms|
  {
    if ms != [] {
      var init := ms[..|ms| - 1];
      assert forall k :: 0 <= k < |init| ==> init[k] == ms[k];
      NothingBegun(profile, created, init, j);
    }
  }

  /** A job started when its first start says, or at its creation when a result came without one. */
  lemma {:induction false} FirstStartTellsTheBeginning(profile: Option<string>, created: Time, ms: seq<Arrival>, j: JobId, i: nat)
    requires j != "" && i < |ms| && Begins(ms[i].msg, j) && forall k :: 0 <= k < i ==> !Begins(ms[k].msg, j)
    ensures var jobs := ApplyAll(map[j := NewRow(profile, created)], ms);
      && j in jobs
      && jobs[j].startedAt == Some(if ms[i].msg.ExtractionMsg? then created
                                   else if ms[i].msg.occurredAt.Some? then ms[i].msg.occurredAt.value else ms[i].now)
    decreases |ms|
  {
    var init, last := ms[..|ms| - 1], ms[|ms| - 1];
    var jobs := ApplyAll(map[j := NewRow(profile, created)], init);
    assert forall k :: 0 <= k < |init| ==> init[k] == ms[k];
    if i < |init| {
      FirstStartTellsTheBeginning(profile, created, init, j, i);
      ApplyAdvances(jobs, last.msg, last.now);
    } else {
      NothingBegun(profile, created, init, j);
    }
  }

  // ----- Worker-built results -----

  /** `_build_outcome` sets the artifact paths exactly for status `ok`, and the error exactly otherwise. */
  predicate WorkerBuilt(r: Extraction) {
    && (r.status == "ok" || r.status == "error")
    && (r.status == "ok" <==> r.chunksPath.Some?) && (r.status == "ok" <==> r.markdownPath.Some?)
    && (r.status == "ok" <==> r.error.None?)
    && (r.chunksPath.Some? ==> r.chunksPath.value != "")
  }

  /** A path is recorded exactly when the state is `succeeded`. */
  predicate PathsMatchState(row: Row) {
    && (row.chunksPath.Some? <==> row.state == Succeeded)
    && (row.markdownPath.Some? <==> row.state == Succeeded)
    && (row.chunksPath.Some? ==> row.chunksPath.value != "")
  }

  /** `get_job_result` for the JSON format: the state in the answer is hard-coded. */
  function ResultState(row: Row): Option<State> {
    if row.chunksPath.Some? && row.chunksPath.value != "" then Some(Succeeded) else None
  }

  /** What the hard-coded state of the result endpoint relies on. */
  lemma {:induction false} ResultEndpointTellsTheState(profile: Option<string>, created: Time, j: JobId, ms: seq<Arrival>)
    requires j != ""
    requires forall i :: 0 <= i < |ms| && ms[i].msg.ExtractionMsg? && ms[i].msg.result.jobId == j ==> WorkerBuilt(ms[i].msg.result)
    ensures var jobs := ApplyAll(map[j := NewRow(profile, created)], ms);
      && j in jobs && PathsMatchState(jobs[j])
      && (ResultState(jobs[j]).Some? <==> jobs[j].state == Succeeded)
    decreases |ms|
  {
    if ms != [] {
      var init := ms[..|ms| - 1];
      assert forall i :: 0 <= i < |init| ==> init[i] == ms[i];
      ResultEndpointTellsTheState(profile, created, j, init);
    }
  }

  /** Without that assumption the endpoint can call a failed job succeeded. */
  lemma ForeignResultMisleads()
    ensures var r := Extraction("j", "error", None, Some("p"), None, None, None, Some("e"));
      var row := ApplyExtraction(NewRow(None, 0), r, 1);
      !WorkerBuilt(r) && row.state == Failed && ResultState(row) == Some(Succeeded)
  {
  }

  /** And exactly: the state told by the endpoint is right after a result iff paths come only with status `ok`. */
  lemma ResultStateRightIff(row: Row, r: Extraction, now: Time)
    ensures var row' := ApplyExtraction(row, r, now);
      (ResultState(row').Some? ==> row'.state == Succeeded) <==> (r.chunksPath.Some? && r.chunksPath.value != "" ==> r.status == "ok")
  {
  }
}
