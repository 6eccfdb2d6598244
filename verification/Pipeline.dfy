/**
  The whole system as a labelled transition system: outbox publisher, jobs queue and extraction workers, LLM
  queue and workers, result queues and projection, in any interleaving and with any of them failing.
 */
module Pipeline {
  import opened Options
  import opened Projection
  import opened Handler
  import opened DeliveryProtocol
  import opened OutboxOrder
  import I = Inbound
  import S = Stages

  /** The API's outbox, the flush under way, and what has reached the jobs queue, in order. */
  datatype Publisher = Publisher(outbox: seq<OutboxRow>, batch: seq<nat>, confirmed: bool, marked: nat, wire: seq<nat>)

  /** `passedOn`: the jobs whose follow-up reached the LLM queue. */
  datatype System = System(announces: bool, pub: Publisher, inn: I.Inbound, ext: S.Stage, llm: S.Stage, passedOn: set<JobId>)

  function Initial(announces: bool): System {
    System(announces, Publisher([], [], false, 0, []), I.Inbound(map[], multiset{}, map[], multiset{}), S.EMPTY, S.EMPTY, {})
  }

  datatype Label =
    | Submit(jobId: JobId, profile: Option<string>, filename: string, sourcePath: string, digest: string, now: Time)
    | Fetch
    | Publish(ok: bool, enqueued: bool)
    | Mark(at: Time)
    | Crash
    | Extract(step: S.Step, occurredAt: Time, newDigest: string)
    | Embed(llmStep: S.Step)
    | Api(apiStep: I.Step)

  function Ext(s: System): Role {
    Extractor(s.announces)
  }

  predicate Enabled(s: System, l: Label) {
    match l
    case Submit(j, _, filename, path, _, _) =>
      j !in s.inn.jobs && !Text.AllSpace(j) && !Text.AllSpace(path) && filename != ""
    case Fetch => s.pub.batch == []
    case Publish(ok, enqueued) => s.pub.batch != [] && !s.pub.confirmed && s.pub.batch[0] < |s.pub.outbox| && (ok ==> enqueued)
    case Mark(_) => s.pub.batch != [] && s.pub.confirmed && s.pub.batch[0] < |s.pub.outbox|
    case Crash => true
    case Extract(step, _, _) => !step.Enqueue? && S.Enabled(Ext(s), s.ext, step)
    case Embed(step) => !step.Enqueue? && S.Enabled(Embedder, s.llm, step)
    case Api(step) => !step.Put? && I.Enabled(s.inn, step)
  }

  function Post(inn: I.Inbound, m: Message): I.Inbound {
    inn.(inbox := inn.inbox + multiset{m})
  }

  function Enqueue(q: S.Stage, body: Body): S.Stage {
    q.(ready := q.ready + multiset{S.Msg(body, false)})
  }

  function FollowUpBody(job: LlmJob, digest: string): Body {
    Body(Some(LlmPayload(job)), digest)
  }

  /** The message of a worker that starts on a job. */
  function Announcement(j: JobId, occurredAt: Time): Message {
    LifecycleMsg(j, "processing", Some(occurredAt))
  }

  /** Once projected, it shows the job as started when the worker says, unless it has got further. */
  lemma AnnouncementStartsTheJob(jobs: map<JobId, Row>, j: JobId, occurredAt: Time, now: Time)
    requires j != "" && j in jobs && jobs[j].state == Queued && jobs[j].startedAt.None?
    ensures Apply(jobs, Announcement(j, occurredAt), now)
         == jobs[j := jobs[j].(state := State.Processing, startedAt := Some(occurredAt))]
  {
  }

  /** What a worker's publish adds to the queues, once it is there. */
  function Emit(s: System, op: Op, occurredAt: Time, digest: string): System {
    match op
    case Announce(j) => s.(inn := Post(s.inn, Announcement(j, occurredAt)))
    case Result(m) => s.(inn := Post(s.inn, m))
    case FollowUp(job) => s.(llm := Enqueue(s.llm, FollowUpBody(job, digest)), passedOn := s.passedOn + {job.extractJobId})
    case _ => s
  }

  /** The first row of the batch is marked. */
  function MarkFirst(p: Publisher, at: Time): Publisher
    requires p.batch != [] && p.batch[0] < |p.outbox|
  {
    var id := p.batch[0];
    p.(outbox := p.outbox[id := p.outbox[id].(publishedAt := Some(at))], batch := p.batch[1..],
       confirmed := false, marked := p.marked + 1)
  }

  function Fire(s: System, l: Label): System
    requires Enabled(s, l)
  {
    match l
    case Submit(j, profile, filename, path, digest, now) =>
      var body := Body(Some(JobPayload(j, filename, path, 0, if profile.Some? then profile.value else "")), digest);
      s.(inn := s.inn.(jobs := s.inn.jobs[j := NewRow(profile, now)]),
         pub := s.pub.(outbox := s.pub.outbox + [OutboxRow(j, body, 0, None)]))
    case Fetch => s.(pub := s.pub.(batch := Pending(s.pub.outbox, 0, BATCH), confirmed := false))
    case Publish(ok, enqueued) =>
      var id := s.pub.batch[0];
      var pub := if ok then s.pub.(confirmed := true) else s.pub.(batch := []);
      if enqueued then
        s.(pub := pub.(wire := s.pub.wire + [id]), ext := Enqueue(s.ext, s.pub.outbox[id].body))
      else s.(pub := pub)
    case Mark(at) => s.(pub := MarkFirst(s.pub, at))
    case Crash => s.(pub := s.pub.(batch := [], confirmed := false))
    case Extract(step, occurredAt, digest) =>
      var s1 := s.(ext := S.Fire(Ext(s), s.ext, step));
      if step.Act? && step.reached then Emit(s1, step.attempt.op, occurredAt, digest) else s1
    case Embed(step) =>
      var s1 := s.(llm := S.Fire(Embedder, s.llm, step));
      if step.Act? && step.reached then Emit(s1, step.attempt.op, 0, "") else s1
    case Api(step) => s.(inn := I.Fire(s.inn, step))
  }

  // ----- Evidence -----

  /** The jobs with a published result. */
  ghost function Results(inn: I.Inbound, llm: bool): set<JobId> {
    set j | j in inn.jobs && I.HasResult(inn, llm, j)
  }

  /** The jobs with a published result or a dead-letter copy. */
  ghost function Done(inn: I.Inbound, role: Role, q: S.Stage): set<JobId> {
    set j | j in inn.jobs && (I.HasResult(inn, role.Embedder?, j) || S.DeadLettered(role, q, j))
  }

  // ----- The invariant -----

  /** Marks form a prefix, the batch follows it, and the wire keeps up with it. */
  predicate PublisherOk(p: Publisher) {
    && MarkedPrefix(p.outbox, p.marked) && KeepsUp(p.wire, p.marked)
    && p.marked + |p.batch| <= |p.outbox| && p.batch == Range(p.marked, p.marked + |p.batch|)
    && (p.confirmed ==> p.batch != [] && p.wire != [] && p.wire[|p.wire| - 1] == p.marked)
    && (forall k :: 0 <= k < |p.wire| ==> p.wire[k] < |p.outbox|)
  }

  predicate RowOk(row: OutboxRow, jobs: map<JobId, Row>) {
    row.jobId in jobs && S.JobIn(Extractor(true), row.body) == Some(row.jobId)
  }

  ghost predicate HasRow(outbox: seq<OutboxRow>, j: JobId) {
    exists i :: 0 <= i < |outbox| && outbox[i].jobId == j
  }

  ghost predicate JobsOk(outbox: seq<OutboxRow>, jobs: map<JobId, Row>) {
    && (forall i :: 0 <= i < |outbox| ==> RowOk(outbox[i], jobs))
    && (forall j :: j in jobs ==> HasRow(outbox, j))
  }

  /** Every job enqueued so far still has its message, or evidence. */
  ghost predicate ExtOk(role: Role, p: Publisher, inn: I.Inbound, ext: S.Stage) {
    && S.Valid(role, ext, inn.jobs.Keys, Done(inn, role, ext), Results(inn, false))
    && forall k :: 0 <= k < |p.wire| && p.wire[k] < |p.outbox| ==>
         Held(role, inn, ext, p.outbox[p.wire[k]].jobId)
  }

  ghost predicate Held(role: Role, inn: I.Inbound, q: S.Stage, j: JobId) {
    S.Carries(role, q, j) || j in Done(inn, role, q)
  }

  /** The same for the follow-ups, each of which has an extraction result behind it. */
  ghost predicate LlmOk(inn: I.Inbound, llm: S.Stage, passedOn: set<JobId>) {
    && passedOn <= Results(inn, false)
    && S.Valid(Embedder, llm, passedOn, Done(inn, Embedder, llm), Results(inn, true))
    && forall j :: j in passedOn ==> Held(Embedder, inn, llm, j)
  }

  ghost predicate Valid(s: System) {
    && PublisherOk(s.pub)
    && JobsOk(s.pub.outbox, s.inn.jobs)
    && I.Valid(s.inn)
    && ExtOk(Ext(s), s.pub, s.inn, s.ext)
    && LlmOk(s.inn, s.llm, s.passedOn)
  }

  // ----- Evidence only grows -----

  ghost predicate Grows(inn: I.Inbound, inn': I.Inbound) {
    && inn.jobs.Keys <= inn'.jobs.Keys
    && forall j, llm :: I.HasResult(inn, llm, j) ==> I.HasResult(inn', llm, j)
  }

  ghost predicate MoreDead(role: Role, q: S.Stage, q': S.Stage) {
    forall j :: S.DeadLettered(role, q, j) ==> S.DeadLettered(role, q', j)
  }

  lemma EvidenceGrows(inn: I.Inbound, inn': I.Inbound, role: Role, q: S.Stage, q': S.Stage)
    requires Grows(inn, inn') && MoreDead(role, q, q')
    ensures Done(inn, role, q) <= Done(inn', role, q')
    ensures Results(inn, role.Embedder?) <= Results(inn', role.Embedder?)
  {
    hide I.HasResult, S.DeadLettered;
  }

  /** A stage left alone stays valid while the evidence around it grows. */
  lemma {:induction false} ExtUntouched(role: Role, p: Publisher, inn: I.Inbound, inn': I.Inbound, ext: S.Stage)
    requires ExtOk(role, p, inn, ext) && Grows(inn, inn') && role.Extractor?
    ensures ExtOk(role, p, inn', ext)
  {
    hide I.HasResult, S.DeadLettered, S.Valid, S.Carries;
    EvidenceGrows(inn, inn', role, ext, ext);
    S.MoreEvidence(role, ext, inn.jobs.Keys, Done(inn, role, ext), Results(inn, false),
                   inn'.jobs.Keys, Done(inn', role, ext), Results(inn', false));
    hide Done;
  }

  lemma LlmUntouched(inn: I.Inbound, inn': I.Inbound, llm: S.Stage, passedOn: set<JobId>)
    requires LlmOk(inn, llm, passedOn) && Grows(inn, inn')
    ensures LlmOk(inn', llm, passedOn)
  {
    hide I.HasResult, S.DeadLettered, S.Valid, S.Carries;
    EvidenceGrows(inn, inn', Embedder, llm, llm);
    EvidenceGrows(inn, inn', Extractor(true), llm, llm);
    S.MoreEvidence(Embedder, llm, passedOn, Done(inn, Embedder, llm), Results(inn, true),
                   passedOn, Done(inn', Embedder, llm), Results(inn', true));
    hide Done;
  }

  // ----- The publisher's steps -----

  lemma SubmitPublisher(p: Publisher, row: OutboxRow)
    requires PublisherOk(p) && row.publishedAt.None?
    ensures PublisherOk(p.(outbox := p.outbox + [row]))
  {
    var q := p.(outbox := p.outbox + [row]);
    assert q.batch == Range(q.marked, q.marked + |q.batch|);
    hide KeepsUp, Range;
    assert forall k :: 0 <= k < |p.wire| ==> p.wire[k] < |q.outbox|;
  }

  lemma FetchPublisher(p: Publisher)
    requires PublisherOk(p)
    ensures PublisherOk(p.(batch := Pending(p.outbox, 0, BATCH), confirmed := false))
  {
    PendingFollowsThePrefix(p.outbox, p.marked, 0, BATCH);
  }

  lemma PublishPublisher(p: Publisher, ok: bool, enqueued: bool)
    requires PublisherOk(p) && p.batch != [] && !p.confirmed && (ok ==> enqueued)
    ensures p.batch[0] == p.marked < |p.outbox|
    ensures var q := if ok then p.(confirmed := true) else p.(batch := []);
      PublisherOk(if enqueued then q.(wire := p.wire + [p.batch[0]]) else q)
  {
    KeepsUpSnoc(p.wire, p.marked);
    assert [] == Range(p.marked, p.marked);
  }

  lemma MarkPublisher(p: Publisher, at: Time)
    requires PublisherOk(p) && p.batch != [] && p.confirmed
    ensures p.batch[0] == p.marked
    ensures PublisherOk(MarkFirst(p, at)) && SameBodies(p.outbox, MarkFirst(p, at).outbox) && MarkFirst(p, at).wire == p.wire
  {
    assert p.batch[1..] == Range(p.marked + 1, p.marked + |p.batch|);
  }

  // ----- Step by step -----

  lemma Reflexive(inn: I.Inbound)
    ensures Grows(inn, inn)
  {
  }

  lemma SubmitKeeps(s: System, l: Label)
    requires Valid(s) && l.Submit? && Enabled(s, l)
    ensures Valid(Fire(s, l))
  {
    var s' := Fire(s, l);
    var profile := if l.profile.Some? then l.profile.value else "";
    var row := NewRow(l.profile, l.now);
    ApiJobsParse(l.jobId, l.filename, l.sourcePath, 0, profile);
    var added := s'.pub.outbox[|s.pub.outbox|];
    SubmitPublisher(s.pub, added);
    forall j, llm ensures I.HasResult(s.inn, llm, j) ==> I.HasResult(s'.inn, llm, j) {
      I.NewJobKeeps(s.inn, l.jobId, row, llm, j);
    }
    I.NewJobKeeps(s.inn, l.jobId, row, false, "");
    assert RowOk(added, s'.inn.jobs);
    hide PublisherOk, I.Valid, I.HasResult, S.JobIn, NewRow, JobPayload;
    ExtUntouched(Ext(s), s.pub, s.inn, s'.inn, s.ext);
    LlmUntouched(s.inn, s'.inn, s.llm, s.passedOn);
    NewRowKeepsJobs(s.pub.outbox, s.inn.jobs, added, row);
    WireStays(Ext(s), s.pub, s'.pub, s'.inn, s.ext);
  }

  /** What a submission puts in the outbox is the job the worker will read, for the row it puts in the table. */
  lemma SubmittedJobIsRead(s: System, l: Label)
    requires l.Submit? && Enabled(s, l)
    ensures var s' := Fire(s, l);
      && |s'.pub.outbox| == |s.pub.outbox| + 1 && s'.pub.outbox[..|s.pub.outbox|] == s.pub.outbox
      && s'.inn.jobs == s.inn.jobs[l.jobId := NewRow(l.profile, l.now)]
      && var row := s'.pub.outbox[|s.pub.outbox|];
         row.jobId == l.jobId && row.publishedAt.None?
         && ParseRequest(row.body.json)
            == Some(JobRequest(l.jobId, l.filename, l.sourcePath, 0, if l.profile.Some? then Text.Strip(l.profile.value) else ""))
  {
    hide ParseRequest, JobPayload, Text.Strip;
    ApiJobsParse(l.jobId, l.filename, l.sourcePath, 0, if l.profile.Some? then l.profile.value else "");
    if l.profile.None? { BlankStrips(""); }
  }

  lemma NewRowKeepsJobs(outbox: seq<OutboxRow>, jobs: map<JobId, Row>, added: OutboxRow, row: Row)
    requires JobsOk(outbox, jobs) && RowOk(added, jobs[added.jobId := row])
    ensures JobsOk(outbox + [added], jobs[added.jobId := row])
  {
    var outbox', jobs' := outbox + [added], jobs[added.jobId := row];
    hide S.JobIn;
    forall j | j in jobs' ensures HasRow(outbox', j) {
      if j == added.jobId {
        assert outbox'[|outbox|].jobId == j;
      } else {
        assert HasRow(outbox, j);
        var i :| 0 <= i < |outbox| && outbox[i].jobId == j;
        assert outbox'[i].jobId == j;
      }
    }
  }

  /** The rows on the wire are still the same jobs. */
  lemma WireStays(role: Role, p: Publisher, p': Publisher, inn: I.Inbound, ext: S.Stage)
    requires ExtOk(role, p, inn, ext) && PublisherOk(p)
    requires p'.wire == p.wire && |p.outbox| <= |p'.outbox|
    requires forall i :: 0 <= i < |p.outbox| ==> p'.outbox[i].jobId == p.outbox[i].jobId
    ensures ExtOk(role, p', inn, ext)
  {
    hide Held, S.Valid, Done, Results;
  }

  /** The publisher moved, and neither the rows' jobs nor the wire changed. */
  lemma PublisherMoves(s: System, p': Publisher)
    requires Valid(s) && PublisherOk(p') && p'.wire == s.pub.wire && SameBodies(s.pub.outbox, p'.outbox)
    ensures Valid(s.(pub := p'))
  {
    RowsStay(s.pub.outbox, p'.outbox, s.inn.jobs);
    hide JobsOk, I.Valid, LlmOk;
    WireStays(Ext(s), s.pub, p', s.inn, s.ext);
  }

  lemma {:induction false} FetchKeeps(s: System, l: Label)
    requires Valid(s) && l.Fetch? && Enabled(s, l)
    ensures Valid(Fire(s, l))
  {
    FetchPublisher(s.pub);
    hide Valid, PublisherOk, Pending;
    PublisherMoves(s, Fire(s, l).pub);
  }

  lemma MarkKeeps(s: System, l: Label)
    requires Valid(s) && l.Mark? && Enabled(s, l)
    ensures Valid(Fire(s, l))
  {
    MarkPublisher(s.pub, l.at);
    hide Valid, PublisherOk, SameBodies, MarkFirst;
    PublisherMoves(s, MarkFirst(s.pub, l.at));
  }

  lemma CrashKeeps(s: System, l: Label)
    requires Valid(s) && l.Crash?
    ensures Valid(Fire(s, l))
  {
    CrashPublisher(s.pub);
    hide Valid, PublisherOk;
    PublisherMoves(s, Fire(s, l).pub);
  }

  lemma CrashPublisher(p: Publisher)
    requires PublisherOk(p)
    ensures PublisherOk(p.(batch := [], confirmed := false))
  {
    RangeNone([], p.marked);
  }

  lemma RowsStay(outbox: seq<OutboxRow>, outbox': seq<OutboxRow>, jobs: map<JobId, Row>)
    requires JobsOk(outbox, jobs) && SameBodies(outbox, outbox')
    ensures JobsOk(outbox', jobs)
  {
    hide S.JobIn;
    forall j | j in jobs ensures HasRow(outbox', j) {
      assert HasRow(outbox, j);
      var i :| 0 <= i < |outbox| && outbox[i].jobId == j;
      assert outbox'[i].jobId == j;
    }
    assert forall i :: 0 <= i < |outbox| ==> RowOk(outbox[i], jobs) && RowOk(outbox'[i], jobs);
  }

  /** One step of a queue, with the evidence its publish leaves in `inn'`. */
  lemma {:induction false} StageMoves(role: Role, inn: I.Inbound, inn': I.Inbound, q: S.Stage, step: S.Step, known: set<JobId>, known': set<JobId>)
    requires S.Valid(role, q, known, Done(inn, role, q), Results(inn, role.Embedder?)) && S.Enabled(role, q, step)
    requires Grows(inn, inn') && known <= known' <= inn'.jobs.Keys
    requires step.Enqueue? ==> S.Known(role, step.body, known')
    requires step.Act? && step.reached && step.attempt.op.Result? ==> I.HasResult(inn', role.Embedder?, JobOf(role, step.d))
    ensures var q' := S.Fire(role, q, step);
      && S.Valid(role, q', known', Done(inn', role, q'), Results(inn', role.Embedder?))
      && (forall j :: Held(role, inn, q, j) ==> Held(role, inn', q', j))
      && (step.Enqueue? ==> Held(role, inn', q', S.JobIn(role, step.body).value))
  {
    var q' := S.Fire(role, q, step);
    var done, results := Done(inn, role, q), Results(inn, role.Embedder?);
    var done', results' := Done(inn', role, q'), Results(inn', role.Embedder?);
    forall j ensures S.DeadLettered(role, q, j) ==> S.DeadLettered(role, q', j) {
      S.DeadLettersGrow(role, q, step, known, done, results, j);
    }
    EvidenceGrows(inn, inn', role, q, q');
    if step.Act? {
      S.DeadLettersGrow(role, q, step, known, done, results, JobOf(role, step.d));
      S.KnownJob(role, step.d, known);
    }
    assert S.EvidenceFor(role, step, done', results');
    S.MoreEvidence(role, q, known, done, results, known', done', results');
    S.StepKeepsValid(role, q, step, known', done', results');
    forall j ensures Held(role, inn, q, j) ==> Held(role, inn', q', j) {
      S.StepKeepsMessages(role, q, step, known', done', results', j);
    }
    if step.Enqueue? {
      S.StepKeepsMessages(role, q, step, known', done', results', S.JobIn(role, step.body).value);
    }
  }

  lemma {:induction false} PublishKeeps(s: System, l: Label)
    requires Valid(s) && l.Publish? && Enabled(s, l)
    ensures Valid(Fire(s, l))
  {
    var s' := Fire(s, l);
    var id := s.pub.batch[0];
    var row := s.pub.outbox[id];
    PublishPublisher(s.pub, l.ok, l.enqueued);
    assert RowOk(row, s.inn.jobs);
    if l.enqueued {
      EnqueueRow(Ext(s), s.pub, s'.pub, s.inn, s.ext, id);
    } else {
      hide JobsOk, I.Valid, LlmOk;
      WireStays(Ext(s), s.pub, s'.pub, s.inn, s.ext);
    }
  }

  /** A row reaches the jobs queue: from now on the queue answers for its job. */
  lemma EnqueueRow(role: Role, p: Publisher, p': Publisher, inn: I.Inbound, ext: S.Stage, id: nat)
    requires ExtOk(role, p, inn, ext) && role.Extractor? && id < |p.outbox| && RowOk(p.outbox[id], inn.jobs)
    requires p'.outbox == p.outbox && p'.wire == p.wire + [id]
    ensures ExtOk(role, p', inn, Enqueue(ext, p.outbox[id].body))
  {
    var row := p.outbox[id];
    var step := S.Step.Enqueue(row.body);
    assert S.Fire(role, ext, step) == Enqueue(ext, row.body);
    StageMoves(role, inn, inn, ext, step, inn.jobs.Keys, inn.jobs.Keys);
    var ext' := Enqueue(ext, row.body);
    hide Held, S.Valid, Enqueue, S.Fire, S.Enabled;
    forall k | 0 <= k < |p'.wire| && p'.wire[k] < |p'.outbox| ensures Held(role, inn, ext', p'.outbox[p'.wire[k]].jobId) {
      assert k < |p.wire| ==> p'.wire[k] == p.wire[k] && Held(role, inn, ext, p.outbox[p.wire[k]].jobId);
    }
  }

  // ----- The extraction workers' steps -----

  /** What a legal attempt puts on the queues is about the delivery's job. */
  lemma {:induction false} EmissionIsSound(role: Role, q: S.Stage, step: S.Step, jobs: map<JobId, Row>, done: set<JobId>, results: set<JobId>)
    requires S.Valid(role, q, jobs.Keys, done, results) && S.Enabled(role, q, step) && step.Act?
    ensures JobOf(role, step.d) in jobs && JobOf(role, step.d) != ""
    ensures step.attempt.op.Announce? ==> step.attempt.op.jobId == JobOf(role, step.d)
    ensures step.attempt.op.Result? ==>
              var m := step.attempt.op.message;
              I.IsResult(role.Embedder?, m, JobOf(role, step.d)) && (m.ExtractionMsg? ==> WorkerBuilt(m.result))
    ensures step.attempt.op.FollowUp? ==>
              && role.Extractor? && step.attempt.op.job.extractJobId == JobOf(role, step.d) && JobOf(role, step.d) in results
              && forall digest :: S.JobIn(Embedder, FollowUpBody(step.attempt.op.job, digest)) == Some(JobOf(role, step.d))
  {
    var d, a := step.d, step.attempt;
    S.KnownJob(role, d, jobs.Keys);
    var w0 := HandlerRun("", Raised(""), EmbeddingRaised(""), "");
    AnswerIsForTheJob(role, d, w0);
    LegalOps(role, d, q.handling[d], a);
    if a.op.Result? {
      var w: HandlerRun :| q.handling[d].answer == AnswerOf(role, d, w);
      AnswerIsForTheJob(role, d, w);
    }
    if a.op.FollowUp? {
      var w: HandlerRun :| !Text.AllSpace(w.newId) && q.handling[d].answer == AnswerOf(role, d, w);
      FollowUpParses(role, d, w);
    }
  }

  lemma LegalOps(role: Role, d: Delivery, p: Phase, a: Attempt)
    requires Next(role, d, p, a) != Illegal
    ensures a.op.Announce? ==> a.op.jobId == JobOf(role, d)
    ensures a.op.Result? ==> p.Worked? && a.op.message == p.answer.message
    ensures a.op.FollowUp? ==> p.ResultOut? && p.answer.next == Some(a.op.job)
  {
    hide JobOf, AnswerOf, StatusOf;
  }

  lemma FollowUpParses(role: Role, d: Delivery, w: HandlerRun)
    requires !Text.AllSpace(w.newId) && AnswerOf(role, d, w).next.Some?
    ensures var job := AnswerOf(role, d, w).next.value;
      && role.Extractor? && job.extractJobId == JobOf(role, d)
      && forall digest :: S.JobIn(Embedder, FollowUpBody(job, digest)) == Some(JobOf(role, d))
  {
    AnswerIsForTheJob(role, d, w);
    assert ParseRequest(d.body.json).Some?;
    var job := AnswerOf(role, d, w).next.value;
    assert !Text.AllSpace(job.extractJobId) && !Text.AllSpace(job.sourcePath);
    FollowUpParsesBack(job);
    hide AnswerOf, JobOf, LlmPayload, ParseLlmRequest, ParseRequest;
  }

  lemma PostGrows(inn: I.Inbound, m: Message, llm: bool, j: JobId)
    requires I.Valid(inn) && Target(m) in inn.jobs && Target(m) != "" && (m.ExtractionMsg? ==> WorkerBuilt(m.result))
    ensures I.Valid(Post(inn, m)) && Grows(inn, Post(inn, m))
    ensures I.IsResult(llm, m, j) ==> I.HasResult(Post(inn, m), llm, j)
  {
    var step := I.Step.Put(m);
    assert I.Fire(inn, step) == Post(inn, m);
    I.StepKeepsValid(inn, step);
    I.StepAdvances(inn, step);
    I.StepKeepsResults(inn, step, llm, j);
    forall k, b ensures I.HasResult(inn, b, k) ==> I.HasResult(Post(inn, m), b, k) {
      I.StepKeepsResults(inn, step, b, k);
    }
  }

  lemma {:induction false} ExtMoves(role: Role, p: Publisher, inn: I.Inbound, inn': I.Inbound, ext: S.Stage, step: S.Step)
    requires ExtOk(role, p, inn, ext) && role.Extractor? && S.Enabled(role, ext, step) && !step.Enqueue?
    requires Grows(inn, inn') && inn'.jobs.Keys == inn.jobs.Keys
    requires step.Act? && step.reached && step.attempt.op.Result? ==> I.HasResult(inn', false, JobOf(role, step.d))
    ensures ExtOk(role, p, inn', S.Fire(role, ext, step))
  {
    StageMoves(role, inn, inn', ext, step, inn.jobs.Keys, inn.jobs.Keys);
    hide Held, S.Valid, S.Fire, S.Enabled, Done, Results, I.HasResult, Grows;
  }

  lemma LlmMoves(inn: I.Inbound, inn': I.Inbound, llm: S.Stage, passedOn: set<JobId>, step: S.Step)
    requires LlmOk(inn, llm, passedOn) && S.Enabled(Embedder, llm, step) && !step.Enqueue?
    requires Grows(inn, inn') && inn'.jobs.Keys == inn.jobs.Keys
    requires step.Act? && step.reached && step.attempt.op.Result? ==> I.HasResult(inn', true, JobOf(Embedder, step.d))
    ensures LlmOk(inn', S.Fire(Embedder, llm, step), passedOn)
  {
    StageMoves(Embedder, inn, inn', llm, step, passedOn, passedOn);
    EvidenceGrows(inn, inn', Extractor(true), llm, llm);
    hide Held, S.Valid, S.Fire, S.Enabled, Done, Results, I.HasResult, Grows;
  }

  lemma {:induction false} FollowUpEnqueued(inn: I.Inbound, llm: S.Stage, passedOn: set<JobId>, body: Body, j: JobId)
    requires LlmOk(inn, llm, passedOn) && j in Results(inn, false) && S.JobIn(Embedder, body) == Some(j)
    ensures LlmOk(inn, Enqueue(llm, body), passedOn + {j})
  {
    var step := S.Step.Enqueue(body);
    assert S.Fire(Embedder, llm, step) == Enqueue(llm, body);
    StageMoves(Embedder, inn, inn, llm, step, passedOn, passedOn + {j});
    hide Held, S.Valid, S.Fire, S.Enabled, Done, Enqueue;
  }

  /** What is emitted about job `j` keeps the queues behind the workers in order. */
  lemma {:induction false} EmitKeeps(s: System, role: Role, op: Op, occurredAt: Time, digest: string, j: JobId)
    requires I.Valid(s.inn) && LlmOk(s.inn, s.llm, s.passedOn) && j in s.inn.jobs && j != ""
    requires op.Announce? ==> op.jobId == j
    requires op.Result? ==> I.IsResult(role.Embedder?, op.message, j) && (op.message.ExtractionMsg? ==> WorkerBuilt(op.message.result))
    requires op.FollowUp? ==>
               op.job.extractJobId == j && j in Results(s.inn, false) && S.JobIn(Embedder, FollowUpBody(op.job, digest)) == Some(j)
    ensures var t := Emit(s, op, occurredAt, digest);
      && t.pub == s.pub && t.ext == s.ext && t.announces == s.announces
      && I.Valid(t.inn) && Grows(s.inn, t.inn) && t.inn.jobs == s.inn.jobs
      && LlmOk(t.inn, t.llm, t.passedOn)
      && (op.Result? ==> I.HasResult(t.inn, role.Embedder?, j))
      && (!op.FollowUp? ==> t.llm == s.llm && t.passedOn == s.passedOn)
  {
    hide I.Valid, I.HasResult, LlmOk, S.JobIn, FollowUpBody, Results, WorkerBuilt;
    match op {
      case Announce(_) =>
        var m := Announcement(j, occurredAt);
        PostGrows(s.inn, m, false, j);
        LlmUntouched(s.inn, Post(s.inn, m), s.llm, s.passedOn);
      case Result(m) =>
        PostGrows(s.inn, m, role.Embedder?, j);
        LlmUntouched(s.inn, Post(s.inn, m), s.llm, s.passedOn);
      case FollowUp(job) => FollowUpEnqueued(s.inn, s.llm, s.passedOn, FollowUpBody(job, digest), j);
      case _ =>
    }
  }

  predicate Emits(step: S.Step) {
    step.Act? && step.reached
  }

  /** The state after a worker's emission, before its own queue has moved. */
  function Emitted(s: System, step: S.Step, occurredAt: Time, digest: string): System {
    if Emits(step) then Emit(s, step.attempt.op, occurredAt, digest) else s
  }

  lemma EmittedKeeps(s: System, role: Role, q: S.Stage, step: S.Step, occurredAt: Time, digest: string)
    requires I.Valid(s.inn) && LlmOk(s.inn, s.llm, s.passedOn)
    requires S.Valid(role, q, s.inn.jobs.Keys, Done(s.inn, role, q), Results(s.inn, role.Embedder?)) && S.Enabled(role, q, step)
    ensures var t := Emitted(s, step, occurredAt, digest);
      && t.pub == s.pub && t.ext == s.ext && t.announces == s.announces
      && I.Valid(t.inn) && Grows(s.inn, t.inn) && t.inn.jobs == s.inn.jobs
      && LlmOk(t.inn, t.llm, t.passedOn)
      && (role.Embedder? ==> t.llm == s.llm && t.passedOn == s.passedOn && !(Emits(step) && step.attempt.op.FollowUp?))
      && (step.Act? && step.reached && step.attempt.op.Result? ==> I.HasResult(t.inn, role.Embedder?, JobOf(role, step.d)))
  {
    Reflexive(s.inn);
    if Emits(step) {
      var done, results := Done(s.inn, role, q), Results(s.inn, role.Embedder?);
      EmissionIsSound(role, q, step, s.inn.jobs, done, results);
      hide I.Valid, LlmOk, I.HasResult, I.IsResult, Grows, JobOf, S.Valid, S.Enabled, S.JobIn, Emit, Done, Results, WorkerBuilt;
      EmitKeeps(s, role, step.attempt.op, occurredAt, digest, JobOf(role, step.d));
    }
  }

  lemma ExtractFrame(s: System, l: Label)
    requires l.Extract? && Enabled(s, l)
    ensures Fire(s, l) == Emitted(s, l.step, l.occurredAt, l.newDigest).(ext := S.Fire(Ext(s), s.ext, l.step))
  {
    hide S.Fire, S.Enabled, FollowUpBody;
  }

  lemma EmbedFrame(s: System, l: Label)
    requires l.Embed? && Enabled(s, l) && !(Emits(l.llmStep) && l.llmStep.attempt.op.FollowUp?)
    ensures Fire(s, l) == Emitted(s, l.llmStep, 0, "").(llm := S.Fire(Embedder, s.llm, l.llmStep))
  {
    hide S.Fire, S.Enabled, FollowUpBody;
  }

  lemma ExtractKeeps(s: System, l: Label)
    requires Valid(s) && l.Extract? && Enabled(s, l)
    ensures Valid(Fire(s, l))
  {
    var step := l.step;
    var t := Emitted(s, step, l.occurredAt, l.newDigest);
    EmittedKeeps(s, Ext(s), s.ext, step, l.occurredAt, l.newDigest);
    ExtractFrame(s, l);
    hide I.Valid, ExtOk, LlmOk, PublisherOk, JobsOk, I.HasResult, Grows, S.Fire, JobOf, S.Enabled, Emitted, Fire;
    ExtMoves(Ext(s), s.pub, s.inn, t.inn, s.ext, step);
  }

  lemma EmbedKeeps(s: System, l: Label)
    requires Valid(s) && l.Embed? && Enabled(s, l)
    ensures Valid(Fire(s, l))
  {
    var step := l.llmStep;
    var t := Emitted(s, step, 0, "");
    LlmKnown(s);
    EmittedKeeps(s, Embedder, s.llm, step, 0, "");
    EmbedFrame(s, l);
    hide I.Valid, ExtOk, LlmOk, PublisherOk, JobsOk, I.HasResult, Grows, S.Fire, JobOf, S.Enabled, Emitted, Emits, Fire;
    ExtUntouched(Ext(s), s.pub, s.inn, t.inn, s.ext);
    LlmMoves(s.inn, t.inn, s.llm, s.passedOn, step);
  }

  /** The LLM queue holds only jobs of the table. */
  lemma LlmKnown(s: System)
    requires LlmOk(s.inn, s.llm, s.passedOn)
    ensures s.passedOn <= s.inn.jobs.Keys
    ensures S.Valid(Embedder, s.llm, s.inn.jobs.Keys, Done(s.inn, Embedder, s.llm), Results(s.inn, true))
  {
    var done, results := Done(s.inn, Embedder, s.llm), Results(s.inn, true);
    S.MoreEvidence(Embedder, s.llm, s.passedOn, done, results, s.inn.jobs.Keys, done, results);
  }

  lemma ApiGrows(inn: I.Inbound, step: I.Step)
    requires I.Valid(inn) && I.Enabled(inn, step)
    ensures I.Valid(I.Fire(inn, step)) && I.Fire(inn, step).jobs.Keys == inn.jobs.Keys && Grows(inn, I.Fire(inn, step))
  {
    hide I.Valid, I.HasResult, I.Fire, I.Enabled;
    I.StepKeepsValid(inn, step);
    I.StepAdvances(inn, step);
    forall j, llm ensures I.HasResult(inn, llm, j) ==> I.HasResult(I.Fire(inn, step), llm, j) {
      I.StepKeepsResults(inn, step, llm, j);
    }
  }

  lemma SameJobs(outbox: seq<OutboxRow>, jobs: map<JobId, Row>, jobs': map<JobId, Row>)
    requires JobsOk(outbox, jobs) && jobs'.Keys == jobs.Keys
    ensures JobsOk(outbox, jobs')
  {
    hide S.JobIn, HasRow;
    forall i | 0 <= i < |outbox| ensures RowOk(outbox[i], jobs') {
      assert RowOk(outbox[i], jobs);
    }
  }

  lemma ApiFrame(s: System, l: Label)
    requires l.Api? && Enabled(s, l)
    ensures I.Enabled(s.inn, l.apiStep) && Fire(s, l) == s.(inn := I.Fire(s.inn, l.apiStep))
  {
    hide I.Fire, I.Enabled;
  }

  lemma ApiKeeps(s: System, l: Label)
    requires Valid(s) && l.Api? && Enabled(s, l)
    ensures Valid(Fire(s, l))
  {
    hide I.Valid, ExtOk, LlmOk, PublisherOk, JobsOk, Grows, I.Fire, I.Enabled, Fire, Enabled;
    ApiFrame(s, l);
    var inn' := I.Fire(s.inn, l.apiStep);
    ApiGrows(s.inn, l.apiStep);
    ExtUntouched(Ext(s), s.pub, s.inn, inn', s.ext);
    LlmUntouched(s.inn, inn', s.llm, s.passedOn);
    SameJobs(s.pub.outbox, s.inn.jobs, inn'.jobs);
  }

  // ----- Every run -----

  lemma StepKeepsValid(s: System, l: Label)
    requires Valid(s) && Enabled(s, l)
    ensures Valid(Fire(s, l))
  {
    hide Valid, Fire, Enabled;
    match l {
      case Submit(_, _, _, _, _, _) => SubmitKeeps(s, l);
      case Fetch => FetchKeeps(s, l);
      case Publish(_, _) => PublishKeeps(s, l);
      case Mark(_) => MarkKeeps(s, l);
      case Crash => CrashKeeps(s, l);
      case Extract(_, _, _) => ExtractKeeps(s, l);
      case Embed(_) => EmbedKeeps(s, l);
      case Api(_) => ApiKeeps(s, l);
    }
  }

  /** No job disappears, and no row of the table regresses. */
  lemma StepAdvancesRows(s: System, l: Label, j: JobId)
    requires Valid(s) && Enabled(s, l) && j in s.inn.jobs
    ensures j in Fire(s, l).inn.jobs && Advances(s.inn.jobs[j], Fire(s, l).inn.jobs[j])
  {
    hide S.Fire, S.Enabled, I.Fire, I.Enabled, PublisherOk, JobsOk, ExtOk, LlmOk, I.Valid;
    if l.Api? {
      I.StepAdvances(s.inn, l.apiStep);
    }
  }

  /** The state a run of labels leads to; `None` when some label is not enabled on the way. */
  function After(announces: bool, labels: seq<Label>): Option<System> {
    if labels == [] then Some(Initial(announces))
    else
      var before := After(announces, labels[..|labels| - 1]);
      var l := labels[|labels| - 1];
      if before.Some? && Enabled(before.value, l) then Some(Fire(before.value, l)) else None
  }

  lemma InitialIsValid(announces: bool)
    ensures Valid(Initial(announces))
  {
  }

  lemma {:induction false} RunsAreValid(announces: bool, labels: seq<Label>)
    requires After(announces, labels).Some?
    ensures Valid(After(announces, labels).value)
    decreases |labels|
  {
    hide Fire, Enabled, Valid;
    if labels == [] {
      InitialIsValid(announces);
    } else {
      var init := labels[..|labels| - 1];
      RunsAreValid(announces, init);
      StepKeepsValid(After(announces, init).value, labels[|labels| - 1]);
    }
  }

  // ----- The theorems -----

  ghost predicate AwaitsPublish(outbox: seq<OutboxRow>, j: JobId) {
    exists i :: 0 <= i < |outbox| && outbox[i].jobId == j && outbox[i].publishedAt.None?
  }

  /**
    In every run, each committed job is somewhere: an unpublished outbox row, a message on the jobs queue, a
    dead-letter copy, or a result that is queued, in flight, projected, or was discarded by the API.
   */
  lemma JobsAreConserved(announces: bool, labels: seq<Label>, j: JobId)
    requires After(announces, labels).Some? && j in After(announces, labels).value.inn.jobs
    ensures var s := After(announces, labels).value;
      || AwaitsPublish(s.pub.outbox, j)
      || S.Carries(Ext(s), s.ext, j)
      || S.DeadLettered(Ext(s), s.ext, j)
      || I.HasResult(s.inn, false, j)
  {
    RunsAreValid(announces, labels);
    var s := After(announces, labels).value;
    hide After, S.Carries, S.DeadLettered, I.HasResult, S.Valid, I.Valid, LlmOk;
    assert HasRow(s.pub.outbox, j);
    var i :| 0 <= i < |s.pub.outbox| && s.pub.outbox[i].jobId == j;
    if s.pub.outbox[i].publishedAt.None? {
    } else {
      FirstPublishesInOrder(s.pub.wire, s.pub.marked, i, 0);
      assert i in s.pub.wire;
      var k :| 0 <= k < |s.pub.wire| && s.pub.wire[k] == i;
      assert Held(Ext(s), s.inn, s.ext, s.pub.outbox[s.pub.wire[k]].jobId);
    }
  }

  /** The same for the follow-up jobs, and none of them comes before its extraction result. */
  lemma FollowUpsAreConserved(announces: bool, labels: seq<Label>, j: JobId)
    requires After(announces, labels).Some? && j in After(announces, labels).value.passedOn
    ensures var s := After(announces, labels).value;
      && I.HasResult(s.inn, false, j)
      && (S.Carries(Embedder, s.llm, j) || S.DeadLettered(Embedder, s.llm, j) || I.HasResult(s.inn, true, j))
  {
    RunsAreValid(announces, labels);
    hide After, S.Carries, S.DeadLettered, I.HasResult, S.Valid, I.Valid, ExtOk, PublisherOk, JobsOk;
  }

  /** The outbox's promises: marks are a prefix, and every marked row is on the wire, after all earlier ones. */
  lemma OutboxIsPublishedInOrder(announces: bool, labels: seq<Label>, i: nat, k: nat)
    requires After(announces, labels).Some?
    ensures var p := After(announces, labels).value.pub;
      && MarkedPrefix(p.outbox, p.marked)
      && (i < |p.outbox| && p.outbox[i].publishedAt.Some? ==> i in p.wire)
      && (k < |p.wire| && i < p.wire[k] ==> i in p.wire[..k])
  {
    RunsAreValid(announces, labels);
    var p := After(announces, labels).value.pub;
    FirstPublishesInOrder(p.wire, p.marked, i, k);
  }

  /** What the result endpoint relies on: in every run, a path is recorded exactly for a succeeded job. */
  lemma EndpointIsRight(announces: bool, labels: seq<Label>, j: JobId)
    requires After(announces, labels).Some? && j in After(announces, labels).value.inn.jobs
    ensures var row := After(announces, labels).value.inn.jobs[j];
      PathsMatchState(row) && (ResultState(row).Some? <==> row.state == Succeeded)
  {
    RunsAreValid(announces, labels);
  }

  /** A message on any queue is about a committed job. */
  lemma MessagesHaveJobs(announces: bool, labels: seq<Label>, m: Message)
    requires After(announces, labels).Some? && m in After(announces, labels).value.inn.inbox
    ensures Target(m) in After(announces, labels).value.inn.jobs
  {
    RunsAreValid(announces, labels);
  }

  /** From any point of a run to any later one, rows only advance. */
  lemma {:induction false} RowsOnlyAdvance(announces: bool, labels: seq<Label>, n: nat, j: JobId)
    requires n <= |labels| && After(announces, labels).Some?
    ensures After(announces, labels[..n]).Some?
    ensures var s, s' := After(announces, labels[..n]).value, After(announces, labels).value;
      j in s.inn.jobs ==> j in s'.inn.jobs && Advances(s.inn.jobs[j], s'.inn.jobs[j])
    decreases |labels|
  {
    hide Fire, Enabled, Valid;
    if n == |labels| {
      assert labels[..n] == labels;
    } else {
      var init := labels[..|labels| - 1];
      assert init[..n] == labels[..n];
      RowsOnlyAdvance(announces, init, n, j);
      RunsAreValid(announces, init);
      if j in After(announces, labels[..n]).value.inn.jobs {
        StepAdvancesRows(After(announces, init).value, labels[|labels| - 1], j);
      }
    }
  }
}
