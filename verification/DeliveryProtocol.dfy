/**
  What a worker may do with one delivery, attempt by attempt, and what that guarantees over every run.
  Both workers follow it: the extraction worker announces a start and passes jobs on, the LLM worker does neither.
 */
module DeliveryProtocol {
  import opened Options
  import opened Projection
  import opened Handler

  /** `announces`: a lifecycle queue is configured. Only the extraction worker has one. */
  datatype Role = Extractor(announces: bool) | Embedder

  datatype Delivery = Delivery(channel: nat, tag: nat, redelivered: bool, body: Body, deliveryId: string)

  /** What running the handler came to. Each role reads its own half. */
  datatype HandlerRun = HandlerRun(parseError: string, conversion: Conversion, embedding: Embedding, newId: string)

  /** The result message and the job to pass on. */
  datatype Answer = Answer(message: Message, next: Option<LlmJob>)

  function AnswerOf(role: Role, d: Delivery, w: HandlerRun): Answer {
    match role
    case Extractor(_) =>
      var o := HandleExtractJob(d.body, d.deliveryId, w.parseError, w.conversion);
      Answer(ExtractionMsg(o.result), FollowUpOf(o, w.newId))
    case Embedder =>
      Answer(LlmMsg(HandleLlmJob(d.body, d.deliveryId, w.parseError, w.embedding)), None)
  }

  function JobOf(role: Role, d: Delivery): JobId {
    match role
    case Extractor(_) => RequestOf(d.body, d.deliveryId).jobId
    case Embedder => LlmRequestOf(d.body, d.deliveryId).extractJobId
  }

  function StatusOf(m: Message): string {
    match m
    case LifecycleMsg(_, state, _) => state
    case ExtractionMsg(r) => r.status
    case LlmMsg(r) => r.status
  }

  /** The delivery was readable, and its work came to something. */
  predicate Succeeds(role: Role, d: Delivery, w: HandlerRun) {
    match role
    case Extractor(_) => ParseRequest(d.body.json).Some? && w.conversion.Converted?
    case Embedder => ParseLlmRequest(d.body.json).Some? && w.embedding.Embedded?
  }

  /** The answer is about the delivered job, and so is the follow-up. */
  lemma AnswerIsForTheJob(role: Role, d: Delivery, w: HandlerRun)
    ensures var a := AnswerOf(role, d, w);
      && Target(a.message) == JobOf(role, d) != ""
      && a.message.ExtractionMsg? == role.Extractor? && a.message.LlmMsg? == role.Embedder?
      && (a.message.ExtractionMsg? ==> WorkerBuilt(a.message.result))
      && (a.next.Some? ==> a.next.value.extractJobId == JobOf(role, d) && StatusOf(a.message) == "ok")
      && StatusOf(a.message) == (if Succeeds(role, d, w) then "ok" else "error")
  {
    EveryJobIsAnswered(d.body, d.deliveryId, w.parseError, w.conversion);
    assert role.Embedder? && ParseLlmRequest(d.body.json).Some? ==> !Text.AllSpace(JobOf(role, d));
  }

  // ----- The automaton -----

  /** `Note` is an entry in the statistics; all others but `Work` are calls on the delivery's channel. */
  datatype Op =
    | Announce(jobId: JobId)
    | Note(status: string)
    | Work(work: HandlerRun)
    | WorkRaised
    | Result(message: Message)
    | FollowUp(job: LlmJob)
    | DeadLetter(body: Body)
    | Ack
    | Nack

  datatype Attempt = Attempt(op: Op, ok: bool)

  datatype Phase =
    | Fresh
    | Announced
    | Accepted
    | Worked(answer: Answer)
    | ResultOut(answer: Answer)
    | PassedOn(answer: Answer)
    | Noted
    | Failing
    | DeadLettered
    | DeadLetterNoted
    | DeadLetterFailing
    | Acked
    | Requeued
    | Stuck
    | Illegal

  function Next(role: Role, d: Delivery, p: Phase, a: Attempt): Phase {
    match p
    case Fresh =>
      if role.Extractor? && role.announces then
        if a.op == Announce(JobOf(role, d)) then (if a.ok then Announced else Failing) else Illegal
      else if a == Attempt(Note("processing"), true) then Accepted else Illegal
    case Announced => if a == Attempt(Note("processing"), true) then Accepted else Illegal
    case Accepted =>
      if a.op.Work? && a.ok then Worked(AnswerOf(role, d, a.op.work))
      else if a.op.WorkRaised? && !a.ok then Failing else Illegal
    case Worked(answer) =>
      if a.op != Result(answer.message) then Illegal
      else if !a.ok then Failing
      else if answer.next.Some? then ResultOut(answer) else PassedOn(answer)
    case ResultOut(answer) =>
      if answer.next.Some? && a.op == FollowUp(answer.next.value) then PassedOn(answer) else Illegal
    case PassedOn(answer) => if a == Attempt(Note(StatusOf(answer.message)), true) then Noted else Illegal
    case Noted => if a.op.Ack? then (if a.ok then Acked else Failing) else Illegal
    case Failing =>
      if d.redelivered then
        if a.op == DeadLetter(d.body) then (if a.ok then DeadLettered else DeadLetterFailing) else Illegal
      else
        if a.op.Nack? then (if a.ok then Requeued else Stuck) else Illegal
    case DeadLettered => if a == Attempt(Note("error"), true) then DeadLetterNoted else Illegal
    case DeadLetterNoted => if a.op.Ack? then (if a.ok then Acked else DeadLetterFailing) else Illegal
    case DeadLetterFailing => if a.op.Nack? then (if a.ok then Requeued else Stuck) else Illegal
    case _ => Illegal
  }

  /** The phase after a run of attempts. */
  function Run(role: Role, d: Delivery, run: seq<Attempt>): Phase {
    if run == [] then Fresh
    else Next(role, d, Run(role, d, run[..|run| - 1]), run[|run| - 1])
  }

  predicate Legal(role: Role, d: Delivery, run: seq<Attempt>) {
    Run(role, d, run) != Illegal
  }

  lemma {:induction false} PrefixIsLegal(role: Role, d: Delivery, run: seq<Attempt>, n: nat)
    requires n <= |run| && Legal(role, d, run)
    ensures Legal(role, d, run[..n])
    decreases |run|
  {
    if n < |run| {
      var init := run[..|run| - 1];
      PrefixIsLegal(role, d, init, n);
      assert init[..n] == run[..n];
    } else {
      assert run[..n] == run;
    }
  }

  // ----- What every legal run guarantees -----

  /** A result, or a copy on the dead-letter queue. */
  predicate Publishes(a: Attempt) {
    (a.op.Result? || a.op.DeadLetter?) && a.ok
  }

  predicate Settles(a: Attempt) {
    (a.op.Ack? || a.op.Nack?) && a.ok
  }

  predicate Fails(a: Attempt) {
    !a.ok && (a.op.Announce? || a.op.WorkRaised? || a.op.Result? || a.op.Ack? || a.op.DeadLetter?)
  }

  predicate Published(run: seq<Attempt>) {
    exists i :: 0 <= i < |run| && Publishes(run[i])
  }

  predicate HasFailure(run: seq<Attempt>) {
    exists i :: 0 <= i < |run| && Fails(run[i])
  }

  predicate Settled(p: Phase) {
    p.Acked? || p.Requeued?
  }

  /** The phases in which a result or a dead-letter copy is out. */
  predicate PublishedPhase(p: Phase) {
    p.ResultOut? || p.PassedOn? || p.Noted? || p.DeadLettered? || p.DeadLetterNoted? || p.Acked?
  }

  predicate DeadLetterPhase(p: Phase) {
    p.DeadLettered? || p.DeadLetterNoted? || p.DeadLetterFailing?
  }

  lemma NextRemembers(role: Role, d: Delivery, p: Phase, a: Attempt)
    requires Next(role, d, p, a) != Illegal
    ensures var q := Next(role, d, p, a);
      && (PublishedPhase(q) ==> PublishedPhase(p) || Publishes(a))
      && (q.Failing? || q.DeadLetterFailing? ==> Fails(a))
      && (DeadLetterPhase(q) ==> d.redelivered || DeadLetterPhase(p))
      && (Settled(q) <==> Settles(a))
  {
  }

  /** What a phase remembers about the run that led to it. */
  lemma {:induction false} PhaseRemembers(role: Role, d: Delivery, run: seq<Attempt>)
    requires Legal(role, d, run)
    ensures var p := Run(role, d, run);
      && (PublishedPhase(p) ==> Published(run))
      && (p.Failing? || p.DeadLetterFailing? ==> HasFailure(run))
      && (DeadLetterPhase(p) ==> d.redelivered)
      && (Settled(p) <==> run != [] && Settles(run[|run| - 1]))
    decreases |run|
  {
    if run != [] {
      var init, a := run[..|run| - 1], run[|run| - 1];
      PrefixIsLegal(role, d, run, |init|);
      PhaseRemembers(role, d, init);
      NextRemembers(role, d, Run(role, d, init), a);
      hide Next, Publishes, Fails, Settles, Published, HasFailure;
      Extends(init, a);
      assert run == init + [a];
    }
  }

  lemma Extends(init: seq<Attempt>, a: Attempt)
    ensures Published(init + [a]) <==> Published(init) || Publishes(a)
    ensures HasFailure(init + [a]) <==> HasFailure(init) || Fails(a)
  {
    var run := init + [a];
    assert forall i :: 0 <= i < |init| ==> run[i] == init[i];
    assert run[|init|] == a;
    if Published(init) {
      var i :| 0 <= i < |init| && Publishes(init[i]);
      assert Publishes(run[i]);
    }
    if HasFailure(init) {
      var i :| 0 <= i < |init| && Fails(init[i]);
      assert Fails(run[i]);
    }
  }

  /** A delivery is acknowledged, or tried to be, only after its result or dead-letter copy was published. */
  lemma AckOnlyAfterPublish(role: Role, d: Delivery, run: seq<Attempt>, i: nat)
    requires Legal(role, d, run) && i < |run| && run[i].op.Ack?
    ensures Published(run[..i])
  {
    AtStep(role, d, run, i);
    PhaseRemembers(role, d, run[..i]);
  }

  /** A delivery is returned to the queue only after an attempt for it failed. */
  lemma NackOnlyAfterFailure(role: Role, d: Delivery, run: seq<Attempt>, i: nat)
    requires Legal(role, d, run) && i < |run| && run[i].op.Nack?
    ensures HasFailure(run[..i])
  {
    AtStep(role, d, run, i);
    PhaseRemembers(role, d, run[..i]);
  }

  /** Nothing follows a successful settlement; in particular there is at most one. */
  lemma SettlesLast(role: Role, d: Delivery, run: seq<Attempt>, i: nat)
    requires Legal(role, d, run) && i < |run| && Settles(run[i])
    ensures i == |run| - 1
  {
    if i + 1 < |run| {
      AtStep(role, d, run, i);
      AtStep(role, d, run, i + 1);
      assert run[..i + 1][..i] == run[..i];
      PhaseRemembers(role, d, run[..i + 1]);
    }
  }

  /** Only a redelivered message reaches the dead-letter queue, unchanged. */
  lemma DeadLetterOnlyRedelivered(role: Role, d: Delivery, run: seq<Attempt>, i: nat)
    requires Legal(role, d, run) && i < |run| && run[i].op.DeadLetter?
    ensures d.redelivered && run[i].op.body == d.body && HasFailure(run[..i])
  {
    AtStep(role, d, run, i);
    PhaseRemembers(role, d, run[..i]);
  }

  /** A phase that carries an answer comes right after the handler that gave it. */
  lemma AnswersComeFromWork(role: Role, d: Delivery, run: seq<Attempt>)
    ensures Run(role, d, run).Worked? ==>
              run != [] && run[|run| - 1].op.Work? && Run(role, d, run).answer == AnswerOf(role, d, run[|run| - 1].op.work)
    ensures Run(role, d, run).ResultOut? ==>
              && |run| > 1 && run[|run| - 1].op.Result? && run[|run| - 1].ok && run[|run| - 2].op.Work?
              && Run(role, d, run).answer == AnswerOf(role, d, run[|run| - 2].op.work)
  {
    hide AnswerOf, JobOf, StatusOf;
    if Run(role, d, run).ResultOut? {
      var init := run[..|run| - 1];
      assert Run(role, d, init).Worked?;
      assert init[|init| - 1] == run[|run| - 2];
    }
  }

  /** A result is the answer of the handler run just before, and a follow-up comes right after its result. */
  lemma ResultIsTheAnswer(role: Role, d: Delivery, run: seq<Attempt>, i: nat)
    requires Legal(role, d, run) && i < |run|
    ensures run[i].op.Result? ==>
              i > 0 && run[i - 1].op.Work? && run[i].op.message == AnswerOf(role, d, run[i - 1].op.work).message
    ensures run[i].op.FollowUp? ==>
              && i > 1 && run[i - 2].op.Work? && run[i - 1].op.Result? && run[i - 1].ok
              && AnswerOf(role, d, run[i - 2].op.work).next == Some(run[i].op.job)
  {
    hide AnswerOf, JobOf, StatusOf, Run;
    AtStep(role, d, run, i);
    AnswersComeFromWork(role, d, run[..i]);
  }

  /** One step of a legal run, seen from the middle. */
  lemma {:induction false} AtStep(role: Role, d: Delivery, run: seq<Attempt>, i: nat)
    requires Legal(role, d, run) && i < |run|
    ensures Legal(role, d, run[..i]) && Legal(role, d, run[..i + 1])
    ensures Run(role, d, run[..i + 1]) == Next(role, d, Run(role, d, run[..i]), run[i])
  {
    PrefixIsLegal(role, d, run, i);
    PrefixIsLegal(role, d, run, i + 1);
    assert run[..i + 1][..i] == run[..i];
  }

  /** A follow-up that is due is published: it is the next thing tried once the result is out. */
  lemma DueFollowUpIsNext(role: Role, d: Delivery, run: seq<Attempt>, k: nat)
    requires Legal(role, d, run) && k + 2 < |run| && run[k].op.Work? && run[k + 1].ok
    requires AnswerOf(role, d, run[k].op.work).next.Some?
    ensures run[k + 1].op == Result(AnswerOf(role, d, run[k].op.work).message)
    ensures run[k + 2].op == FollowUp(AnswerOf(role, d, run[k].op.work).next.value)
  {
    hide AnswerOf, JobOf, StatusOf, Run;
    AtStep(role, d, run, k);
    AtStep(role, d, run, k + 1);
    AtStep(role, d, run, k + 2);
  }

  /** No delivery is acknowledged over a due follow-up that was not tried, unless something else failed first. */
  lemma {:induction false} NoAckBeforeDueFollowUp(role: Role, d: Delivery, run: seq<Attempt>, k: nat, i: nat)
    requires Legal(role, d, run) && k < i < |run| && run[k].op.Work? && run[i].op.Ack?
    requires AnswerOf(role, d, run[k].op.work).next.Some?
    requires forall m :: k < m < i && (run[m].op.Result? || run[m].op.Ack? || run[m].op.DeadLetter?) ==> run[m].ok
    ensures exists m :: k < m < i && run[m].op == FollowUp(AnswerOf(role, d, run[k].op.work).next.value)
  {
    hide AnswerOf, JobOf, StatusOf, Run;
    AtStep(role, d, run, k);
    AtStep(role, d, run, k + 1);
    assert run[k + 1].op.Result?;
    DueFollowUpIsNext(role, d, run, k);
    assert k < k + 2 < i;
  }
}
