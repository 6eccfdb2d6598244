/** One queue with its workers: deliveries, attempts, lost channels, crashed workers, dead letters. */
module Stages {
  import opened Options
  import opened Projection
  import opened Handler
  import opened DeliveryProtocol

  datatype Msg = Msg(body: Body, redelivered: bool)

  /**
    `unacked` is what the broker has delivered and not seen settled, `handling` what the workers are at.
    The two differ when a settlement is lost, or a worker or its channel goes away.
   */
  datatype Stage = Stage(
    ready: multiset<Msg>,
    unacked: set<Delivery>,
    handling: map<Delivery, Phase>,
    seen: set<Delivery>,
    dead: multiset<Body>)

  const EMPTY := Stage(multiset{}, {}, map[], {}, multiset{})

  datatype Step =
    | Enqueue(body: Body)
    | Deliver(d: Delivery)
    | Act(d: Delivery, attempt: Attempt, reached: bool)
    | Forget(d: Delivery)
    | Requeue(d: Delivery)

  /** The job a queued body is for, if it parses. */
  function JobIn(role: Role, body: Body): Option<JobId> {
    match role
    case Extractor(_) =>
      var r := ParseRequest(body.json);
      if r.Some? then Some(r.value.jobId) else None
    case Embedder =>
      var r := ParseLlmRequest(body.json);
      if r.Some? then Some(r.value.extractJobId) else None
  }

  predicate IsPublish(op: Op) {
    op.Announce? || op.Result? || op.FollowUp? || op.DeadLetter?
  }

  /**
    `reached` says whether the broker took the call. A publish that returned was taken, one that raised may have
    been; a settlement may be lost either way.
   */
  predicate Enabled(role: Role, s: Stage, l: Step) {
    match l
    case Enqueue(body) => JobIn(role, body).Some?
    case Deliver(d) => Msg(d.body, d.redelivered) in s.ready && d !in s.seen
    case Act(d, a, reached) =>
      && d in s.handling && Next(role, d, s.handling[d], a) != Illegal
      && (IsPublish(a.op) && a.ok ==> reached)
      && (a.op.Work? ==> !Text.AllSpace(a.op.work.newId))
    case Forget(d) => d in s.handling
    case Requeue(d) => d in s.unacked
  }

  function Settle(s: Stage, d: Delivery, op: Op): Stage {
    if op.Ack? then s.(unacked := s.unacked - {d})
    else if op.Nack? && d in s.unacked then
      s.(unacked := s.unacked - {d}, ready := s.ready + multiset{Msg(d.body, true)})
    else s
  }

  function Fire(role: Role, s: Stage, l: Step): Stage
    requires Enabled(role, s, l)
  {
    match l
    case Enqueue(body) => s.(ready := s.ready + multiset{Msg(body, false)})
    case Deliver(d) =>
      s.(ready := s.ready - multiset{Msg(d.body, d.redelivered)}, unacked := s.unacked + {d},
         handling := s.handling[d := Fresh], seen := s.seen + {d})
    case Act(d, a, reached) =>
      var s1 := s.(handling := s.handling[d := Next(role, d, s.handling[d], a)]);
      if !reached then s1
      else if a.op.DeadLetter? then s1.(dead := s1.dead + multiset{a.op.body})
      else Settle(s1, d, a.op)
    case Forget(d) => s.(handling := s.handling - {d})
    case Requeue(d) => s.(unacked := s.unacked - {d}, ready := s.ready + multiset{Msg(d.body, true)})
  }

  // ----- Where a job's message can be -----

  ghost predicate Waiting(role: Role, s: Stage, j: JobId) {
    exists m :: m in s.ready && JobIn(role, m.body) == Some(j)
  }

  ghost predicate Unsettled(role: Role, s: Stage, j: JobId) {
    exists d :: d in s.unacked && JobIn(role, d.body) == Some(j)
  }

  /** The queue still holds a message for the job, ready or unacknowledged. */
  ghost predicate Carries(role: Role, s: Stage, j: JobId) {
    Waiting(role, s, j) || Unsettled(role, s, j)
  }

  ghost predicate DeadLettered(role: Role, s: Stage, j: JobId) {
    exists b :: b in s.dead && JobIn(role, b) == Some(j)
  }

  // ----- The invariant -----

  predicate Known(role: Role, body: Body, known: set<JobId>) {
    JobIn(role, body).Some? && JobIn(role, body).value in known
  }

  ghost predicate GoodAnswer(role: Role, d: Delivery, answer: Answer) {
    exists w: HandlerRun :: !Text.AllSpace(w.newId) && answer == AnswerOf(role, d, w)
  }

  predicate ResultPhase(p: Phase) {
    p.ResultOut? || p.PassedOn? || p.Noted?
  }

  predicate HasAnswer(p: Phase) {
    p.Worked? || p.ResultOut? || p.PassedOn?
  }

  /** What a worker past its publish has left behind: `done` holds every published job, `results` those with a result. */
  ghost predicate PhaseOk(role: Role, d: Delivery, p: Phase, done: set<JobId>, results: set<JobId>) {
    && p != Illegal
    && (PublishedPhase(p) ==> JobOf(role, d) in done)
    && (ResultPhase(p) ==> JobOf(role, d) in results)
    && (HasAnswer(p) ==> GoodAnswer(role, d, p.answer))
  }

  ghost predicate Valid(role: Role, s: Stage, known: set<JobId>, done: set<JobId>, results: set<JobId>) {
    && (forall m :: m in s.ready ==> Known(role, m.body, known))
    && (forall d :: d in s.unacked ==> Known(role, d.body, known))
    && (forall d :: d in s.handling ==> Known(role, d.body, known) && PhaseOk(role, d, s.handling[d], done, results))
    && (forall b :: b in s.dead ==> Known(role, b, known))
  }

  lemma KnownJob(role: Role, d: Delivery, known: set<JobId>)
    requires Known(role, d.body, known)
    ensures JobIn(role, d.body) == Some(JobOf(role, d)) && JobOf(role, d) in known
  {
  }

  /** One attempt moves the phase as the evidence it leaves allows. */
  lemma PhaseStep(role: Role, d: Delivery, p: Phase, a: Attempt, done: set<JobId>, results: set<JobId>)
    requires PhaseOk(role, d, p, done, results) && Next(role, d, p, a) != Illegal
    requires a.op.Work? ==> !Text.AllSpace(a.op.work.newId)
    requires a.op.Result? && a.ok ==> JobOf(role, d) in done && JobOf(role, d) in results
    requires a.op.DeadLetter? && a.ok ==> JobOf(role, d) in done
    ensures PhaseOk(role, d, Next(role, d, p, a), done, results)
    ensures a.op.Ack? ==> JobOf(role, d) in done
  {
    hide AnswerOf, JobOf;
    if a.op.Work? {
      assert GoodAnswer(role, d, AnswerOf(role, d, a.op.work));
    }
  }

  lemma DeadLetterIsTheBody(role: Role, d: Delivery, p: Phase, a: Attempt)
    requires Next(role, d, p, a) != Illegal
    ensures a.op.DeadLetter? ==> a.op.body == d.body
  {
    hide JobOf, AnswerOf, StatusOf;
  }

  /** More evidence never hurts. */
  lemma {:induction false} MoreEvidence(role: Role, s: Stage, known: set<JobId>, done: set<JobId>, results: set<JobId>,
                     known': set<JobId>, done': set<JobId>, results': set<JobId>)
    requires Valid(role, s, known, done, results)
    requires known <= known' && done <= done' && results <= results'
    ensures Valid(role, s, known', done', results')
  {
    hide JobIn, JobOf, GoodAnswer, PublishedPhase;
  }

  /** What a step must leave as evidence: a result or dead-letter publish that reached the broker counts. */
  ghost predicate EvidenceFor(role: Role, l: Step, done: set<JobId>, results: set<JobId>) {
    l.Act? && l.reached ==>
      && (l.attempt.op.Result? ==> JobOf(role, l.d) in done && JobOf(role, l.d) in results)
      && (l.attempt.op.DeadLetter? ==> JobOf(role, l.d) in done)
  }

  /** The body a step is about. */
  function Subject(l: Step): Body {
    if l.Enqueue? then l.body else l.d.body
  }

  /** Where the contents of the next state come from. */
  lemma NothingFromNowhere(role: Role, s: Stage, l: Step)
    requires Enabled(role, s, l)
    ensures var s' := Fire(role, s, l);
      && (forall m :: m in s'.ready ==> m in s.ready || m.body == Subject(l))
      && (forall d :: d in s'.unacked ==> d in s.unacked || (l.Deliver? && d == l.d))
      && (forall b :: b in s'.dead ==> b in s.dead || (l.Act? && l.attempt.op.DeadLetter? && b == l.attempt.op.body))
      && (forall d :: d in s'.handling ==>
            || (l.Deliver? && d == l.d && s'.handling[d] == Fresh)
            || (l.Act? && d == l.d && s'.handling[d] == Next(role, d, s.handling[d], l.attempt))
            || (d in s.handling && s'.handling[d] == s.handling[d]))
  {
    hide Next, JobIn, Enabled, IsPublish;
    if l.Act? {
      hide Fire;
      ActComes(role, s, l);
    }
  }

  lemma ActComes(role: Role, s: Stage, l: Step)
    requires l.Act? && Enabled(role, s, l)
    ensures var s' := Fire(role, s, l);
      && (forall m :: m in s'.ready ==> m in s.ready || m.body == l.d.body)
      && s'.unacked <= s.unacked
      && (forall b :: b in s'.dead ==> b in s.dead || (l.attempt.op.DeadLetter? && b == l.attempt.op.body))
      && s'.handling == s.handling[l.d := Next(role, l.d, s.handling[l.d], l.attempt)]
  {
    hide Next, JobIn, Enabled;
    assert Enabled(role, s, l);
  }

  /** Where the contents of a state go. */
  lemma NothingIntoNowhere(role: Role, s: Stage, l: Step)
    requires Enabled(role, s, l)
    ensures var s' := Fire(role, s, l);
      && (forall m :: m in s.ready ==> m in s'.ready || (l.Deliver? && m.body == l.d.body && l.d in s'.unacked))
      && (forall d :: d in s.unacked ==>
            d in s'.unacked || Msg(d.body, true) in s'.ready || (l.Act? && l.d == d && l.attempt.op.Ack?))
      && (forall b :: b in s.dead ==> b in s'.dead)
      && (l.Enqueue? ==> Msg(l.body, false) in s'.ready)
      && (l.Act? && l.attempt.op.DeadLetter? && l.reached ==> l.attempt.op.body in s'.dead)
  {
    hide Next, JobIn;
    if l.Act? {
      hide Fire;
      ActGoes(role, s, l);
    }
  }

  lemma ActGoes(role: Role, s: Stage, l: Step)
    requires l.Act? && Enabled(role, s, l)
    ensures var s' := Fire(role, s, l);
      && (forall m :: m in s.ready ==> m in s'.ready)
      && (forall d :: d in s.unacked ==>
            d in s'.unacked || Msg(d.body, true) in s'.ready || (l.d == d && l.attempt.op.Ack?))
      && (forall b :: b in s.dead ==> b in s'.dead)
      && (l.attempt.op.DeadLetter? && l.reached ==> l.attempt.op.body in s'.dead)
  {
    hide Next, JobIn, Enabled;
    assert Enabled(role, s, l);
  }

  lemma {:induction false} ActKeepsValid(role: Role, s: Stage, l: Step, known: set<JobId>, done: set<JobId>, results: set<JobId>)
    requires Valid(role, s, known, done, results) && l.Act? && Enabled(role, s, l) && EvidenceFor(role, l, done, results)
    ensures Valid(role, Fire(role, s, l), known, done, results)
  {
    ActComes(role, s, l);
    PhaseStep(role, l.d, s.handling[l.d], l.attempt, done, results);
    DeadLetterIsTheBody(role, l.d, s.handling[l.d], l.attempt);
    hide Fire, Next, PhaseOk, JobIn, JobOf, EvidenceFor, Known, IsPublish;
    StepKeepsKnown(role, s, l, known, done, results, Fire(role, s, l));
  }

  /** Every step keeps the invariant. */
  lemma {:induction false} StepKeepsValid(role: Role, s: Stage, l: Step, known: set<JobId>, done: set<JobId>, results: set<JobId>)
    requires Valid(role, s, known, done, results) && Enabled(role, s, l) && EvidenceFor(role, l, done, results)
    requires l.Enqueue? ==> Known(role, l.body, known)
    ensures Valid(role, Fire(role, s, l), known, done, results)
  {
    if l.Act? {
      hide Valid, Fire, Enabled, EvidenceFor;
      ActKeepsValid(role, s, l, known, done, results);
    } else {
      NothingFromNowhere(role, s, l);
      SubjectIsKnown(role, s, l, known, done, results);
      hide Fire, Next, GoodAnswer, JobIn, JobOf, EvidenceFor, Known, Enabled;
      StepKeepsKnown(role, s, l, known, done, results, Fire(role, s, l));
    }
  }

  lemma StepKeepsKnown(role: Role, s: Stage, l: Step, known: set<JobId>, done: set<JobId>, results: set<JobId>, s': Stage)
    requires Valid(role, s, known, done, results) && Known(role, Subject(l), known)
    requires forall m :: m in s'.ready ==> m in s.ready || m.body == Subject(l)
    requires forall d :: d in s'.unacked ==> d in s.unacked || (l.Deliver? && d == l.d)
    requires forall b :: b in s'.dead ==> b in s.dead || b == Subject(l)
    requires forall d :: d in s'.handling ==>
               || (!l.Enqueue? && d == l.d && PhaseOk(role, d, s'.handling[d], done, results))
               || (d in s.handling && s'.handling[d] == s.handling[d])
    ensures Valid(role, s', known, done, results)
  {
    hide Known, PhaseOk;
  }

  lemma SubjectIsKnown(role: Role, s: Stage, l: Step, known: set<JobId>, done: set<JobId>, results: set<JobId>)
    requires Valid(role, s, known, done, results) && Enabled(role, s, l)
    requires l.Enqueue? ==> Known(role, l.body, known)
    ensures Known(role, Subject(l), known)
  {
    hide Known, Next, JobIn, PhaseOk;
  }

  /** A message leaves the queue for good only when its job has evidence elsewhere. */
  lemma {:induction false} StepKeepsMessages(role: Role, s: Stage, l: Step, known: set<JobId>, done: set<JobId>, results: set<JobId>, j: JobId)
    requires Valid(role, s, known, done, results) && Enabled(role, s, l) && EvidenceFor(role, l, done, results)
    ensures Carries(role, s, j) ==> Carries(role, Fire(role, s, l), j) || j in done
    ensures l.Enqueue? && JobIn(role, l.body) == Some(j) ==> Carries(role, Fire(role, s, l), j)
  {
    var s' := Fire(role, s, l);
    NothingIntoNowhere(role, s, l);
    if l.Act? {
      PhaseStep(role, l.d, s.handling[l.d], l.attempt, done, results);
      KnownJob(role, l.d, known);
    }
    hide Fire, JobIn, JobOf, Next, PhaseOk, Known, Valid;
    if Waiting(role, s, j) {
      var m :| m in s.ready && JobIn(role, m.body) == Some(j);
      assert m in s'.ready ==> Waiting(role, s', j);
    } else if Unsettled(role, s, j) {
      var d :| d in s.unacked && JobIn(role, d.body) == Some(j);
      assert Msg(d.body, true) in s'.ready ==> Waiting(role, s', j);
    }
    assert l.Enqueue? ==> Msg(l.body, false) in s'.ready;
  }

  /** A dead-letter publish that reached the broker leaves a copy for the delivery's job; copies stay. */
  lemma DeadLettersGrow(role: Role, s: Stage, l: Step, known: set<JobId>, done: set<JobId>, results: set<JobId>, j: JobId)
    requires Valid(role, s, known, done, results) && Enabled(role, s, l)
    ensures DeadLettered(role, s, j) ==> DeadLettered(role, Fire(role, s, l), j)
    ensures l.Act? && l.attempt.op.DeadLetter? && l.reached && JobOf(role, l.d) == j ==> DeadLettered(role, Fire(role, s, l), j)
  {
    var s' := Fire(role, s, l);
    NothingIntoNowhere(role, s, l);
    if l.Act? {
      KnownJob(role, l.d, known);
      DeadLetterIsTheBody(role, l.d, s.handling[l.d], l.attempt);
    }
    hide Fire, JobIn, JobOf, Next, PhaseOk, Known, Valid;
    if DeadLettered(role, s, j) {
      var b :| b in s.dead && JobIn(role, b) == Some(j);
      assert b in s'.dead;
    }
  }
}
