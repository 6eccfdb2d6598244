/** Causes come first: what every run keeps about the order of enqueue, extraction result, follow-up and LLM result. */
module Causality {
  import opened Options
  import opened Projection
  import opened Handler
  import opened DeliveryProtocol
  import opened OutboxOrder
  import opened Pipeline
  import I = Inbound
  import S = Stages

  /** The jobs whose outbox row has reached the jobs queue. */
  ghost function OnWire(p: Publisher): set<JobId> {
    set i | i in p.wire && i < |p.outbox| :: p.outbox[i].jobId
  }

  /** The row is as the submission made it. */
  ghost predicate AsCreated(row: Row) {
    exists profile, now :: row == NewRow(profile, now)
  }

  /** The message's job was enqueued, and passed on if an LLM worker wrote it. */
  predicate MessageCaused(m: Message, wire: set<JobId>, passedOn: set<JobId>) {
    Target(m) in wire && (m.LlmMsg? ==> Target(m) in passedOn)
  }

  ghost predicate RowCaused(j: JobId, row: Row, wire: set<JobId>, passedOn: set<JobId>) {
    (j in wire || AsCreated(row)) && (I.Projected(true, row) ==> j in passedOn)
  }

  ghost predicate InboundCaused(inn: I.Inbound, wire: set<JobId>, passedOn: set<JobId>) {
    && (forall m :: m in inn.inbox ==> MessageCaused(m, wire, passedOn))
    && (forall t :: t in inn.taken ==> MessageCaused(inn.taken[t].msg, wire, passedOn))
    && (forall m :: m in inn.discarded ==> MessageCaused(m, wire, passedOn))
    && (forall j :: j in inn.jobs ==> RowCaused(j, inn.jobs[j], wire, passedOn))
  }

  ghost predicate ExtCaused(role: Role, inn: I.Inbound, ext: S.Stage, wire: set<JobId>) {
    S.Valid(role, ext, wire, Done(inn, role, ext), Results(inn, false))
  }

  ghost predicate Caused(s: System) {
    && InboundCaused(s.inn, OnWire(s.pub), s.passedOn)
    && ExtCaused(Ext(s), s.inn, s.ext, OnWire(s.pub))
  }

  lemma MoreCauses(inn: I.Inbound, wire: set<JobId>, passedOn: set<JobId>, wire': set<JobId>, passedOn': set<JobId>)
    requires InboundCaused(inn, wire, passedOn) && wire <= wire' && passedOn <= passedOn'
    ensures InboundCaused(inn, wire', passedOn')
  {
    hide I.Projected, AsCreated;
  }

  lemma ResultsAreCaused(inn: I.Inbound, wire: set<JobId>, passedOn: set<JobId>, j: JobId)
    requires InboundCaused(inn, wire, passedOn)
    ensures I.HasResult(inn, false, j) ==> j in wire
    ensures I.HasResult(inn, true, j) ==> j in passedOn
  {
    hide AsCreated;
    if I.InTable(inn, false, j) {
      assert RowCaused(j, inn.jobs[j], wire, passedOn);
      FreshRowsHaveNoResult(inn.jobs[j]);
    }
  }

  lemma FreshRowsHaveNoResult(row: Row)
    ensures AsCreated(row) ==> !I.Projected(false, row) && !I.Projected(true, row)
  {
  }

  // ----- The stage and the messages, step by step -----

  lemma OnWireHasJobs(s: System)
    requires PublisherOk(s.pub) && JobsOk(s.pub.outbox, s.inn.jobs)
    ensures OnWire(s.pub) <= s.inn.jobs.Keys
  {
    hide S.JobIn;
    forall i | i in s.pub.wire && i < |s.pub.outbox| ensures s.pub.outbox[i].jobId in s.inn.jobs {
      assert RowOk(s.pub.outbox[i], s.inn.jobs);
    }
  }

  lemma {:induction false} ExtStays(role: Role, inn: I.Inbound, inn': I.Inbound, ext: S.Stage, wire: set<JobId>)
    requires ExtCaused(role, inn, ext, wire) && Grows(inn, inn') && role.Extractor?
    ensures ExtCaused(role, inn', ext, wire)
  {
    hide I.HasResult, S.DeadLettered, S.Valid;
    EvidenceGrows(inn, inn', role, ext, ext);
    S.MoreEvidence(role, ext, wire, Done(inn, role, ext), Results(inn, false), wire, Done(inn', role, ext), Results(inn', false));
  }

  lemma {:induction false} ExtSteps(role: Role, inn: I.Inbound, inn': I.Inbound, ext: S.Stage, step: S.Step, wire: set<JobId>, wire': set<JobId>)
    requires ExtCaused(role, inn, ext, wire) && role.Extractor? && S.Enabled(role, ext, step)
    requires Grows(inn, inn') && wire <= wire' <= inn'.jobs.Keys
    requires step.Enqueue? ==> S.Known(role, step.body, wire')
    requires step.Act? && step.reached && step.attempt.op.Result? ==> I.HasResult(inn', false, JobOf(role, step.d))
    ensures ExtCaused(role, inn', S.Fire(role, ext, step), wire')
  {
    hide S.Valid, S.Fire, S.Enabled, Done, Results, I.HasResult, Grows, Held;
    StageMoves(role, inn, inn', ext, step, wire, wire');
  }

  lemma PostKeeps(inn: I.Inbound, m: Message, wire: set<JobId>, passedOn: set<JobId>)
    requires InboundCaused(inn, wire, passedOn) && MessageCaused(m, wire, passedOn)
    ensures InboundCaused(Post(inn, m), wire, passedOn)
  {
    hide RowCaused, MessageCaused;
  }

  lemma SubmittedRow(inn: I.Inbound, j: JobId, profile: Option<string>, now: Time, wire: set<JobId>, passedOn: set<JobId>)
    requires InboundCaused(inn, wire, passedOn)
    ensures InboundCaused(inn.(jobs := inn.jobs[j := NewRow(profile, now)]), wire, passedOn)
  {
    hide MessageCaused;
    assert AsCreated(NewRow(profile, now));
  }

  lemma ApiMessages(inn: I.Inbound, step: I.Step, wire: set<JobId>, passedOn: set<JobId>)
    requires InboundCaused(inn, wire, passedOn) && I.Enabled(inn, step) && !step.Put? && !step.Project?
    ensures InboundCaused(I.Fire(inn, step), wire, passedOn)
  {
    hide MessageCaused, RowCaused;
  }

  lemma ApiProjects(inn: I.Inbound, step: I.Step, wire: set<JobId>, passedOn: set<JobId>)
    requires InboundCaused(inn, wire, passedOn) && I.Enabled(inn, step) && step.Project?
    ensures InboundCaused(I.Fire(inn, step), wire, passedOn)
  {
    hide AsCreated;
    var m := inn.taken[step.tag].msg;
    assert MessageCaused(m, wire, passedOn);
    forall j | j in inn.jobs ensures RowCaused(j, Apply(inn.jobs, m, step.now)[j], wire, passedOn) {
      assert RowCaused(j, inn.jobs[j], wire, passedOn);
    }
  }

  // ----- Every step -----

  lemma StepGrows(s: System, l: Label)
    requires Valid(s) && Enabled(s, l)
    ensures Grows(s.inn, Fire(s, l).inn)
  {
    hide I.HasResult, S.Fire, S.Enabled, S.Valid, I.Fire, I.Enabled, PublisherOk, JobsOk, I.Valid, NewRow, JobPayload;
    match l {
      case Submit(j, profile, _, _, _, now) =>
        FreshRowsMatch(profile, now);
        forall k, llm ensures I.HasResult(s.inn, llm, k) ==> I.HasResult(Fire(s, l).inn, llm, k) {
          I.NewJobKeeps(s.inn, j, NewRow(profile, now), llm, k);
        }
      case Extract(step, occurredAt, digest) =>
        hide Grows, LlmOk, Done, Results;
        EmittedKeeps(s, Ext(s), s.ext, step, occurredAt, digest);
        ExtractFrame(s, l);
      case Embed(step) =>
        hide Grows, Done, Results;
        LlmKnown(s);
        EmittedKeeps(s, Embedder, s.llm, step, 0, "");
        EmbedFrame(s, l);
      case Api(step) => ApiGrows(s.inn, step);
      case _ =>
    }
  }

  lemma FreshRowsMatch(profile: Option<string>, now: Time)
    ensures PathsMatchState(NewRow(profile, now))
  {
  }

  lemma PublisherAfter(s: System, l: Label)
    requires PublisherOk(s.pub) && Enabled(s, l)
    ensures var p, p' := s.pub, Fire(s, l).pub;
      && |p.outbox| <= |p'.outbox| && (forall i :: 0 <= i < |p.outbox| ==> p'.outbox[i].jobId == p.outbox[i].jobId)
      && (l.Publish? ==> p.batch != [] && p.batch[0] < |p.outbox|)
      && p'.wire == if l.Publish? && l.enqueued then p.wire + [p.batch[0]] else p.wire
  {
    hide PublisherOk, S.Fire, S.Enabled, I.Fire, I.Enabled, JobPayload, FollowUpBody, Pending, NewRow;
  }

  /** The wire grew by a row, or stayed. */
  lemma WireAfter(s: System, l: Label)
    requires Valid(s) && Enabled(s, l)
    ensures OnWire(s.pub) <= OnWire(Fire(s, l).pub)
    ensures !l.Publish? ==> OnWire(Fire(s, l).pub) == OnWire(s.pub)
    ensures l.Publish? && l.enqueued ==> s.pub.outbox[s.pub.batch[0]].jobId in OnWire(Fire(s, l).pub)
  {
    hide Fire, Enabled, ExtOk, LlmOk, I.Valid, JobsOk;
    var p, p' := s.pub, Fire(s, l).pub;
    PublisherAfter(s, l);
    assert forall i :: i in p.wire ==> i < |p.outbox| && i in p'.wire;
    assert l.Publish? && l.enqueued ==> p.batch[0] in p'.wire;
  }

  lemma SameWire(p: Publisher, p': Publisher)
    requires p'.wire == p.wire && p'.outbox == p.outbox
    ensures OnWire(p') == OnWire(p)
  {
  }

  lemma {:induction false} PublishCaused(s: System, l: Label)
    requires Valid(s) && Caused(s) && l.Publish? && Enabled(s, l)
    ensures Caused(Fire(s, l))
  {
    var s' := Fire(s, l);
    hide ExtOk, LlmOk, I.Valid, S.JobIn, InboundCaused, ExtCaused, S.Valid, OnWire, KeepsUp, MarkedPrefix, Range;
    WireAfter(s, l);
    MoreCauses(s.inn, OnWire(s.pub), s.passedOn, OnWire(s'.pub), s.passedOn);
    Reflexive(s.inn);
    if l.enqueued {
      var row := s.pub.outbox[s.pub.batch[0]];
      var step := S.Step.Enqueue(row.body);
      assert RowOk(row, s.inn.jobs);
      StepKeepsValid(s, l);
      OnWireHasJobs(s');
      assert S.Fire(Ext(s), s.ext, step) == s'.ext;
      hide ExtCaused, InboundCaused, Valid, S.Fire, OnWire, Grows;
      ExtSteps(Ext(s), s.inn, s.inn, s.ext, step, OnWire(s.pub), OnWire(s'.pub));
    } else {
      SameWire(s.pub, s'.pub);
    }
  }

  /** A worker's emission is about a job with the causes that emission needs. */
  lemma {:induction false} EmissionIsCaused(s: System, role: Role, q: S.Stage, step: S.Step, occurredAt: Time, digest: string,
                         wire: set<JobId>, done: set<JobId>)
    requires InboundCaused(s.inn, wire, s.passedOn) && I.Valid(s.inn)
    requires S.Valid(role, q, s.inn.jobs.Keys, done, Results(s.inn, role.Embedder?)) && S.Enabled(role, q, step)
    requires step.Act? ==> JobOf(role, step.d) in wire && (role.Embedder? ==> JobOf(role, step.d) in s.passedOn)
    ensures InboundCaused(Emitted(s, step, occurredAt, digest).inn, wire, Emitted(s, step, occurredAt, digest).passedOn)
  {
    hide InboundCaused, I.Valid, S.Valid, S.Enabled, Results, WorkerBuilt, FollowUpBody, S.JobIn, JobOf;
    if Emits(step) {
      EmissionIsSound(role, q, step, s.inn.jobs, done, Results(s.inn, role.Embedder?));
      match step.attempt.op {
        case Announce(j) => PostKeeps(s.inn, Announcement(j, occurredAt), wire, s.passedOn);
        case Result(m) => PostKeeps(s.inn, m, wire, s.passedOn);
        case FollowUp(job) => MoreCauses(s.inn, wire, s.passedOn, wire, s.passedOn + {job.extractJobId});
        case _ =>
      }
    }
  }

  lemma {:induction false} ExtractCaused(s: System, l: Label)
    requires Valid(s) && Caused(s) && l.Extract? && Enabled(s, l)
    ensures Caused(Fire(s, l))
  {
    var s', step, wire := Fire(s, l), l.step, OnWire(s.pub);
    var done := Done(s.inn, Ext(s), s.ext);
    WireAfter(s, l);
    OnWireHasJobs(s);
    StepGrows(s, l);
    EmittedKeeps(s, Ext(s), s.ext, step, l.occurredAt, l.newDigest);
    ExtractFrame(s, l);
    StepsJob(Ext(s), s.ext, step, wire, done, Results(s.inn, false));
    hide InboundCaused, I.Valid, S.Valid, S.Fire, S.Enabled, Fire, Emitted, OnWire, Grows, Done, Results, JobOf;
    hide LlmOk, PublisherOk, JobsOk, I.HasResult;
    EmissionIsCaused(s, Ext(s), s.ext, step, l.occurredAt, l.newDigest, wire, done);
    ExtSteps(Ext(s), s.inn, s'.inn, s.ext, step, wire, wire);
  }

  /** A worker acts on a delivery the queue made, and so on a known job. */
  lemma StepsJob(role: Role, q: S.Stage, step: S.Step, known: set<JobId>, done: set<JobId>, results: set<JobId>)
    requires S.Valid(role, q, known, done, results) && S.Enabled(role, q, step)
    ensures step.Act? ==> JobOf(role, step.d) in known
  {
    hide S.JobIn, JobOf, Next, S.PhaseOk;
    if step.Act? {
      S.KnownJob(role, step.d, known);
    }
  }

  lemma {:induction false} EmbedCaused(s: System, l: Label)
    requires Valid(s) && Caused(s) && l.Embed? && Enabled(s, l)
    ensures Caused(Fire(s, l))
  {
    var s', step, wire := Fire(s, l), l.llmStep, OnWire(s.pub);
    var done := Done(s.inn, Embedder, s.llm);
    WireAfter(s, l);
    StepGrows(s, l);
    LlmKnown(s);
    EmittedKeeps(s, Embedder, s.llm, step, 0, "");
    EmbedFrame(s, l);
    StepsJob(Embedder, s.llm, step, s.passedOn, done, Results(s.inn, true));
    FollowUpsAreCaused(s);
    hide InboundCaused, I.Valid, S.Valid, S.Fire, S.Enabled, Fire, Emitted, OnWire, Grows, Done, Results, JobOf;
    hide LlmOk, PublisherOk, JobsOk, I.HasResult;
    EmissionIsCaused(s, Embedder, s.llm, step, 0, "", wire, done);
    ExtStays(Ext(s), s.inn, s'.inn, s.ext, wire);
  }

  /** A follow-up has an extraction result behind it, and so an enqueue. */
  lemma FollowUpsAreCaused(s: System)
    requires Valid(s) && Caused(s)
    ensures s.passedOn <= OnWire(s.pub)
  {
    hide I.HasResult, OnWire, InboundCaused, S.Valid, I.Valid, PublisherOk, JobsOk, ExtOk, ExtCaused;
    forall j | j in s.passedOn ensures j in OnWire(s.pub) {
      ResultsAreCaused(s.inn, OnWire(s.pub), s.passedOn, j);
    }
  }

  lemma {:induction false} ApiCaused(s: System, l: Label)
    requires Valid(s) && Caused(s) && l.Api? && Enabled(s, l)
    ensures Caused(Fire(s, l))
  {
    WireAfter(s, l);
    StepGrows(s, l);
    hide InboundCaused, Grows, I.Fire, I.Enabled, OnWire, Valid, ExtCaused;
    ExtStays(Ext(s), s.inn, Fire(s, l).inn, s.ext, OnWire(s.pub));
    if l.apiStep.Project? {
      ApiProjects(s.inn, l.apiStep, OnWire(s.pub), s.passedOn);
    } else {
      ApiMessages(s.inn, l.apiStep, OnWire(s.pub), s.passedOn);
    }
  }

  lemma {:induction false} PublisherCaused(s: System, l: Label)
    requires Valid(s) && Caused(s) && (l.Submit? || l.Fetch? || l.Mark? || l.Crash?) && Enabled(s, l)
    ensures Caused(Fire(s, l))
  {
    WireAfter(s, l);
    StepGrows(s, l);
    hide InboundCaused, Grows, OnWire, Valid, ExtCaused, JobPayload, NewRow;
    ExtStays(Ext(s), s.inn, Fire(s, l).inn, s.ext, OnWire(s.pub));
    if l.Submit? {
      SubmittedRow(s.inn, l.jobId, l.profile, l.now, OnWire(s.pub), s.passedOn);
    }
  }

  /** Every step of the system keeps causes before their effects. */
  lemma StepKeepsCaused(s: System, l: Label)
    requires Valid(s) && Caused(s) && Enabled(s, l)
    ensures Caused(Fire(s, l))
  {
    hide Valid, Caused, Fire, Enabled;
    match l {
      case Publish(_, _) => PublishCaused(s, l);
      case Extract(_, _, _) => ExtractCaused(s, l);
      case Embed(_) => EmbedCaused(s, l);
      case Api(_) => ApiCaused(s, l);
      case _ => PublisherCaused(s, l);
    }
  }

  lemma InitialIsCaused(announces: bool)
    ensures Caused(Initial(announces))
  {
  }

  lemma {:induction false} RunsAreCaused(announces: bool, labels: seq<Label>)
    requires After(announces, labels).Some?
    ensures Caused(After(announces, labels).value)
    decreases |labels|
  {
    hide Caused, Fire, Enabled, Valid;
    if labels == [] {
      InitialIsCaused(announces);
    } else {
      var init := labels[..|labels| - 1];
      RunsAreValid(announces, init);
      RunsAreCaused(announces, init);
      StepKeepsCaused(After(announces, init).value, labels[|labels| - 1]);
    }
  }

  // ----- The theorems -----

  /** Some worker is at a delivery of the job. */
  ghost predicate WorkedOn(role: Role, q: S.Stage, j: JobId) {
    exists d :: d in q.handling && S.JobIn(role, d.body) == Some(j)
  }

  /** In every run, an LLM result comes only after the follow-up, and that only after the extraction result. */
  lemma {:induction false} LlmResultsComeLast(announces: bool, labels: seq<Label>, j: JobId)
    requires After(announces, labels).Some?
    ensures var s := After(announces, labels).value;
      && (I.HasResult(s.inn, true, j) ==> j in s.passedOn)
      && (S.Carries(Embedder, s.llm, j) || WorkedOn(Embedder, s.llm, j) || S.DeadLettered(Embedder, s.llm, j) ==> j in s.passedOn)
      && (j in s.passedOn ==> I.HasResult(s.inn, false, j))
      && (I.HasResult(s.inn, false, j) ==> j in OnWire(s.pub))
  {
    var s := After(announces, labels).value;
    hide Valid, Caused, After, OnWire, I.HasResult, S.Carries, S.DeadLettered, WorkedOn;
    RunsAreValid(announces, labels);
    RunsAreCaused(announces, labels);
    ResultsHaveCauses(s, j);
    LlmWorkHasCauses(s, j);
  }

  lemma ResultsHaveCauses(s: System, j: JobId)
    requires Valid(s) && Caused(s)
    ensures I.HasResult(s.inn, true, j) ==> j in s.passedOn
    ensures j in s.passedOn ==> I.HasResult(s.inn, false, j)
    ensures I.HasResult(s.inn, false, j) ==> j in OnWire(s.pub)
  {
    hide I.HasResult, OnWire, InboundCaused, S.Valid, I.Valid, PublisherOk, JobsOk, ExtOk, ExtCaused;
    ResultsAreCaused(s.inn, OnWire(s.pub), s.passedOn, j);
  }

  lemma LlmWorkHasCauses(s: System, j: JobId)
    requires Valid(s)
    ensures S.Carries(Embedder, s.llm, j) || WorkedOn(Embedder, s.llm, j) || S.DeadLettered(Embedder, s.llm, j) ==> j in s.passedOn
  {
    hide I.Valid, PublisherOk, JobsOk, ExtOk, Done, Results, S.JobIn, S.PhaseOk, Held;
  }

  /** Some message to the API is about the job, queued, taken or discarded. */
  ghost predicate ToldOf(inn: I.Inbound, j: JobId) {
    || (exists m :: m in inn.inbox && Target(m) == j)
    || (exists t :: t in inn.taken && Target(inn.taken[t].msg) == j)
    || (exists m :: m in inn.discarded && Target(m) == j)
  }

  /**
    In every run, until the first publish of its outbox row reaches the broker, nothing is about a job: no
    delivery, no dead-letter copy, no message to the API, no follow-up, and its row is as submitted.
   */
  lemma {:induction false} NothingBeforeTheEnqueue(announces: bool, labels: seq<Label>, j: JobId)
    requires After(announces, labels).Some? && j !in OnWire(After(announces, labels).value.pub)
    ensures var s := After(announces, labels).value;
      && !S.Carries(Ext(s), s.ext, j) && !WorkedOn(Ext(s), s.ext, j) && !S.DeadLettered(Ext(s), s.ext, j)
      && !ToldOf(s.inn, j) && j !in s.passedOn
      && (j in s.inn.jobs ==> AsCreated(s.inn.jobs[j]))
  {
    var s := After(announces, labels).value;
    hide Valid, Caused, After, OnWire, AsCreated, S.Carries, S.DeadLettered, WorkedOn, ToldOf;
    RunsAreValid(announces, labels);
    RunsAreCaused(announces, labels);
    FollowUpsAreCaused(s);
    NothingInbound(s, j);
    NothingAtTheWorkers(s, j);
  }

  lemma NothingInbound(s: System, j: JobId)
    requires Caused(s) && j !in OnWire(s.pub)
    ensures !ToldOf(s.inn, j) && (j in s.inn.jobs ==> AsCreated(s.inn.jobs[j]))
  {
    hide OnWire, AsCreated, ExtCaused, I.Projected;
    assert j in s.inn.jobs ==> RowCaused(j, s.inn.jobs[j], OnWire(s.pub), s.passedOn);
  }

  lemma NothingAtTheWorkers(s: System, j: JobId)
    requires Caused(s) && j !in OnWire(s.pub)
    ensures !S.Carries(Ext(s), s.ext, j) && !WorkedOn(Ext(s), s.ext, j) && !S.DeadLettered(Ext(s), s.ext, j)
  {
    hide OnWire, InboundCaused, S.JobIn, S.PhaseOk, Done, Results;
  }
}
