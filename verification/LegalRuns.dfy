/** The runs the delivery protocol allows, written out: each is a beginning of one of a few whole turns. */
module LegalRuns {
  import opened Options
  import opened Projection
  import opened Handler
  import opened DeliveryProtocol

  /** Up to the handler. */
  function Opening(role: Role, d: Delivery): seq<Attempt> {
    (if role.Extractor? && role.announces then [Attempt(Announce(JobOf(role, d)), true)] else [])
    + [Attempt(Note("processing"), true)]
  }

  function Handled(role: Role, d: Delivery, w: HandlerRun): seq<Attempt> {
    Opening(role, d) + [Attempt(Op.Work(w), true)]
  }

  /** From the handler's answer to the acknowledgement; `sent` is how the publish of the follow-up ends. */
  function Completed(answer: Answer, sent: bool): seq<Attempt> {
    [Attempt(Result(answer.message), true)]
    + (if answer.next.Some? then [Attempt(FollowUp(answer.next.value), sent)] else [])
    + [Attempt(Note(StatusOf(answer.message)), true)]
  }

  /** What may fail first. */
  datatype Failure = AnnounceFailed | HandlerRaised | ResultFailed(work: HandlerRun) | AckFailed(work: HandlerRun, sent: bool)

  /** A run up to its failure, the failed attempt included. */
  function UpToFailure(role: Role, d: Delivery, f: Failure): seq<Attempt> {
    match f
    case AnnounceFailed => [Attempt(Announce(JobOf(role, d)), false)]
    case HandlerRaised => Opening(role, d) + [Attempt(WorkRaised, false)]
    case ResultFailed(w) => Handled(role, d, w) + [Attempt(Result(AnswerOf(role, d, w).message), false)]
    case AckFailed(w, sent) => Handled(role, d, w) + Completed(AnswerOf(role, d, w), sent) + [Attempt(Ack, false)]
  }

  /** What is done about it: returned to the queue, or dead-lettered, or returned because that did not work out. */
  datatype Remedy = Returned(ok: bool) | Buried | NotBuried(ok: bool) | NotAcked(ok: bool)

  function Remedied(d: Delivery, r: Remedy): seq<Attempt> {
    match r
    case Returned(ok) => [Attempt(Nack, ok)]
    case Buried => Burial(d) + [Attempt(Ack, true)]
    case NotBuried(ok) => [Attempt(DeadLetter(d.body), false), Attempt(Nack, ok)]
    case NotAcked(ok) => Burial(d) + [Attempt(Ack, false), Attempt(Nack, ok)]
  }

  function Burial(d: Delivery): seq<Attempt> {
    [Attempt(DeadLetter(d.body), true), Attempt(Note("error"), true)]
  }

  datatype Turn = Success(work: HandlerRun, sent: bool) | Trouble(failure: Failure, remedy: Remedy)

  /** Only an announced start can fail to be announced, and only a redelivery is dead-lettered. */
  predicate Possible(role: Role, d: Delivery, t: Turn) {
    t.Trouble? ==>
      && (t.failure.AnnounceFailed? ==> role.Extractor? && role.announces)
      && (t.remedy.Returned? <==> !d.redelivered)
  }

  function Whole(role: Role, d: Delivery, t: Turn): seq<Attempt> {
    match t
    case Success(w, sent) => Handled(role, d, w) + Completed(AnswerOf(role, d, w), sent) + [Attempt(Ack, true)]
    case Trouble(f, r) => UpToFailure(role, d, f) + Remedied(d, r)
  }

  ghost predicate Begins(role: Role, d: Delivery, run: seq<Attempt>) {
    exists t :: Possible(role, d, t) && run <= Whole(role, d, t)
  }

  // ----- Whole turns are legal -----

  lemma RunSnoc(role: Role, d: Delivery, run: seq<Attempt>, a: Attempt)
    ensures Run(role, d, run + [a]) == Next(role, d, Run(role, d, run), a)
  {
    assert (run + [a])[..|run|] == run;
  }

  lemma OpeningRuns(role: Role, d: Delivery)
    ensures Run(role, d, Opening(role, d)) == Accepted
  {
    hide JobOf, AnswerOf, StatusOf;
    RunSnoc(role, d, [], Attempt(Announce(JobOf(role, d)), true));
    RunSnoc(role, d, [Attempt(Announce(JobOf(role, d)), true)], Attempt(Note("processing"), true));
    RunSnoc(role, d, [], Attempt(Note("processing"), true));
    assert [] + [Attempt(Announce(JobOf(role, d)), true)] == [Attempt(Announce(JobOf(role, d)), true)];
  }

  lemma HandledRuns(role: Role, d: Delivery, w: HandlerRun)
    ensures Run(role, d, Handled(role, d, w)) == Worked(AnswerOf(role, d, w))
  {
    hide AnswerOf, Opening, Run;
    OpeningRuns(role, d);
    RunSnoc(role, d, Opening(role, d), Attempt(Op.Work(w), true));
  }

  lemma CompletedRuns(role: Role, d: Delivery, w: HandlerRun, sent: bool)
    ensures Run(role, d, Handled(role, d, w) + Completed(AnswerOf(role, d, w), sent)) == Noted
  {
    hide AnswerOf, Handled, Run, StatusOf;
    HandledRuns(role, d, w);
    var answer, run := AnswerOf(role, d, w), Handled(role, d, w);
    var result, note := Attempt(Result(answer.message), true), Attempt(Note(StatusOf(answer.message)), true);
    RunSnoc(role, d, run, result);
    if answer.next.Some? {
      var followUp := Attempt(FollowUp(answer.next.value), sent);
      RunSnoc(role, d, run + [result], followUp);
      RunSnoc(role, d, run + [result] + [followUp], note);
      assert run + Completed(answer, sent) == run + [result] + [followUp] + [note];
    } else {
      RunSnoc(role, d, run + [result], note);
      assert run + Completed(answer, sent) == run + [result] + [note];
    }
  }

  lemma FailureRuns(role: Role, d: Delivery, f: Failure)
    requires f.AnnounceFailed? ==> role.Extractor? && role.announces
    ensures Run(role, d, UpToFailure(role, d, f)) == Failing
  {
    hide AnswerOf, JobOf, Handled, Opening, Completed, Run, StatusOf;
    match f
    case AnnounceFailed =>
      FreshRun(role, d);
      RunSnoc(role, d, [], Attempt(Announce(JobOf(role, d)), false));
      assert [] + [Attempt(Announce(JobOf(role, d)), false)] == [Attempt(Announce(JobOf(role, d)), false)];
    case HandlerRaised =>
      OpeningRuns(role, d);
      RunSnoc(role, d, Opening(role, d), Attempt(WorkRaised, false));
    case ResultFailed(w) =>
      HandledRuns(role, d, w);
      RunSnoc(role, d, Handled(role, d, w), Attempt(Result(AnswerOf(role, d, w).message), false));
    case AckFailed(w, sent) =>
      CompletedRuns(role, d, w, sent);
      RunSnoc(role, d, Handled(role, d, w) + Completed(AnswerOf(role, d, w), sent), Attempt(Ack, false));
  }

  lemma FreshRun(role: Role, d: Delivery)
    ensures Run(role, d, []) == Fresh
  {
  }

  lemma BurialRuns(role: Role, d: Delivery, run: seq<Attempt>)
    requires Run(role, d, run) == Failing && d.redelivered
    ensures Run(role, d, run + Burial(d)) == DeadLetterNoted
  {
    hide Run;
    RunSnoc(role, d, run, Attempt(DeadLetter(d.body), true));
    RunSnoc(role, d, run + [Attempt(DeadLetter(d.body), true)], Attempt(Note("error"), true));
    assert run + Burial(d) == run + [Attempt(DeadLetter(d.body), true)] + [Attempt(Note("error"), true)];
  }

  lemma RemedyRuns(role: Role, d: Delivery, run: seq<Attempt>, r: Remedy)
    requires Run(role, d, run) == Failing && (r.Returned? <==> !d.redelivered)
    ensures Run(role, d, run + Remedied(d, r)) == if r.Buried? then Acked else if r.ok then Requeued else Stuck
  {
    hide Run, Burial;
    match r
    case Returned(ok) => RunSnoc(role, d, run, Attempt(Nack, ok));
    case Buried =>
      BurialRuns(role, d, run);
      RunSnoc(role, d, run + Burial(d), Attempt(Ack, true));
      assert run + Remedied(d, r) == run + Burial(d) + [Attempt(Ack, true)];
    case NotBuried(ok) =>
      RunSnoc(role, d, run, Attempt(DeadLetter(d.body), false));
      RunSnoc(role, d, run + [Attempt(DeadLetter(d.body), false)], Attempt(Nack, ok));
      assert run + Remedied(d, r) == run + [Attempt(DeadLetter(d.body), false)] + [Attempt(Nack, ok)];
    case NotAcked(ok) =>
      BurialRuns(role, d, run);
      RunSnoc(role, d, run + Burial(d), Attempt(Ack, false));
      RunSnoc(role, d, run + Burial(d) + [Attempt(Ack, false)], Attempt(Nack, ok));
      assert run + Remedied(d, r) == run + Burial(d) + [Attempt(Ack, false)] + [Attempt(Nack, ok)];
  }

  lemma TurnRuns(role: Role, d: Delivery, t: Turn)
    requires Possible(role, d, t)
    ensures Legal(role, d, Whole(role, d, t))
  {
    hide Run, Handled, Completed, AnswerOf, UpToFailure, Remedied;
    match t
    case Success(w, sent) =>
      CompletedRuns(role, d, w, sent);
      RunSnoc(role, d, Handled(role, d, w) + Completed(AnswerOf(role, d, w), sent), Attempt(Ack, true));
    case Trouble(f, r) =>
      FailureRuns(role, d, f);
      RemedyRuns(role, d, UpToFailure(role, d, f), r);
  }

  // ----- Legal runs begin whole turns -----

  ghost predicate Failed(role: Role, d: Delivery, run: seq<Attempt>) {
    exists f: Failure :: (f.AnnounceFailed? ==> role.Extractor? && role.announces) && run == UpToFailure(role, d, f)
  }

  ghost predicate FailedThen(role: Role, d: Delivery, run: seq<Attempt>, rest: seq<Attempt>) {
    |rest| <= |run| && run[|run| - |rest|..] == rest && Failed(role, d, run[..|run| - |rest|])
  }

  ghost predicate DidHandle(role: Role, d: Delivery, run: seq<Attempt>, answer: Answer) {
    exists w :: answer == AnswerOf(role, d, w) && run == Handled(role, d, w)
  }

  /** The answer's result, follow-up and note so far: `n` of them. */
  ghost predicate DidComplete(role: Role, d: Delivery, run: seq<Attempt>, answer: Answer, n: nat) {
    exists w, sent ::
      && answer == AnswerOf(role, d, w) && n <= |Completed(answer, sent)|
      && run == Handled(role, d, w) + Completed(answer, sent)[..n]
  }

  /** What a run looks like in each phase. */
  ghost predicate Shape(role: Role, d: Delivery, p: Phase, run: seq<Attempt>) {
    match p
    case Fresh => run == []
    case Announced => role.Extractor? && role.announces && run == [Attempt(Announce(JobOf(role, d)), true)]
    case Accepted => run == Opening(role, d)
    case Worked(answer) => DidHandle(role, d, run, answer)
    case ResultOut(answer) => answer.next.Some? && DidComplete(role, d, run, answer, 1)
    case PassedOn(answer) => DidComplete(role, d, run, answer, if answer.next.Some? then 2 else 1)
    case Noted => exists w, sent :: run == Handled(role, d, w) + Completed(AnswerOf(role, d, w), sent)
    case Failing => Failed(role, d, run)
    case DeadLettered => d.redelivered && FailedThen(role, d, run, [Attempt(DeadLetter(d.body), true)])
    case DeadLetterNoted => d.redelivered && FailedThen(role, d, run, Burial(d))
    case DeadLetterFailing =>
      && d.redelivered
      && (FailedThen(role, d, run, [Attempt(DeadLetter(d.body), false)]) || FailedThen(role, d, run, Burial(d) + [Attempt(Ack, false)]))
    case Acked => Begins(role, d, run)
    case Requeued => Begins(role, d, run)
    case Stuck => Begins(role, d, run)
    case Illegal => false
  }

  lemma FailedThenMore(role: Role, d: Delivery, run: seq<Attempt>, rest: seq<Attempt>, a: Attempt)
    requires FailedThen(role, d, run, rest)
    ensures FailedThen(role, d, run + [a], rest + [a])
  {
    hide Failed;
    var more := run + [a];
    var n := |run| - |rest|;
    assert more[n..] == run[n..] + [a] && more[..n] == run[..n];
  }

  lemma FailedSoFar(role: Role, d: Delivery, run: seq<Attempt>)
    requires Failed(role, d, run)
    ensures FailedThen(role, d, run, [])
  {
    hide Failed;
    assert run[..|run|] == run && run[|run|..] == [];
  }

  /** A failed run with a beginning of a remedy begins a turn. */
  lemma {:induction false} FailedBegins(role: Role, d: Delivery, run: seq<Attempt>, rest: seq<Attempt>, r: Remedy)
    requires FailedThen(role, d, run, rest) && rest <= Remedied(d, r) && (r.Returned? <==> !d.redelivered)
    ensures Begins(role, d, run)
  {
    hide UpToFailure, Remedied;
    var n := |run| - |rest|;
    var f: Failure :| (f.AnnounceFailed? ==> role.Extractor? && role.announces) && run[..n] == UpToFailure(role, d, f);
    var t := Trouble(f, r);
    assert run == run[..n] + rest;
    assert Possible(role, d, t) && run <= Whole(role, d, t);
  }

  lemma IsFailed(role: Role, d: Delivery, run: seq<Attempt>, f: Failure)
    requires (f.AnnounceFailed? ==> role.Extractor? && role.announces) && run == UpToFailure(role, d, f)
    ensures Failed(role, d, run)
  {
  }

  lemma EarlyStep(role: Role, d: Delivery, p: Phase, run: seq<Attempt>, a: Attempt)
    requires Shape(role, d, p, run) && Next(role, d, p, a) != Illegal && (p.Fresh? || p.Announced? || p.Accepted?)
    ensures Shape(role, d, Next(role, d, p, a), run + [a])
  {
    hide JobOf, AnswerOf, StatusOf, Failed;
    assert p.Fresh? ==> run + [a] == [a];
    if Next(role, d, p, a).Failing? {
      IsFailed(role, d, run + [a], if p.Fresh? then AnnounceFailed else HandlerRaised);
    }
    if p.Accepted? && a.op.Work? {
      assert run + [a] == Handled(role, d, a.op.work);
    }
  }

  lemma WorkedStep(role: Role, d: Delivery, p: Phase, run: seq<Attempt>, a: Attempt)
    requires Shape(role, d, p, run) && Next(role, d, p, a) != Illegal && p.Worked?
    ensures Shape(role, d, Next(role, d, p, a), run + [a])
  {
    hide JobOf, AnswerOf, StatusOf, Failed, Handled;
    var w :| p.answer == AnswerOf(role, d, w) && run == Handled(role, d, w);
    if a.ok {
      assert Completed(p.answer, true)[..1] == [a];
      assert DidComplete(role, d, run + [a], p.answer, 1);
    } else {
      IsFailed(role, d, run + [a], ResultFailed(w));
    }
  }

  lemma CompletingStep(role: Role, d: Delivery, p: Phase, run: seq<Attempt>, a: Attempt)
    requires Shape(role, d, p, run) && Next(role, d, p, a) != Illegal && (p.ResultOut? || p.PassedOn?)
    ensures Shape(role, d, Next(role, d, p, a), run + [a])
  {
    hide JobOf, AnswerOf, StatusOf, Failed, Handled;
    var n := if p.PassedOn? && p.answer.next.Some? then 2 else 1;
    assert DidComplete(role, d, run, p.answer, n);
    var w, sent :|
      && p.answer == AnswerOf(role, d, w) && n <= |Completed(p.answer, sent)|
      && run == Handled(role, d, w) + Completed(p.answer, sent)[..n];
    if p.ResultOut? {
      assert Completed(p.answer, a.ok)[..2] == Completed(p.answer, sent)[..1] + [a];
      assert run + [a] == Handled(role, d, w) + Completed(p.answer, a.ok)[..2];
    } else {
      assert Completed(p.answer, sent) == Completed(p.answer, sent)[..n] + [a];
      assert run + [a] == Handled(role, d, w) + Completed(AnswerOf(role, d, w), sent);
    }
  }

  lemma NotedStep(role: Role, d: Delivery, p: Phase, run: seq<Attempt>, a: Attempt)
    requires Shape(role, d, p, run) && Next(role, d, p, a) != Illegal && p.Noted?
    ensures Shape(role, d, Next(role, d, p, a), run + [a])
  {
    hide JobOf, AnswerOf, StatusOf, Failed, Handled, Completed;
    var w, sent :| run == Handled(role, d, w) + Completed(AnswerOf(role, d, w), sent);
    if a.ok {
      assert Possible(role, d, Success(w, sent)) && run + [a] <= Whole(role, d, Success(w, sent));
    } else {
      IsFailed(role, d, run + [a], AckFailed(w, sent));
    }
  }

  lemma {:induction false} TroubleStep(role: Role, d: Delivery, p: Phase, run: seq<Attempt>, a: Attempt)
    requires Shape(role, d, p, run) && Next(role, d, p, a) != Illegal
    requires p.Failing? || p.DeadLettered? || p.DeadLetterNoted? || p.DeadLetterFailing?
    ensures Shape(role, d, Next(role, d, p, a), run + [a])
  {
    hide JobOf, AnswerOf, StatusOf, Failed, FailedThen, Begins;
    match p {
      case Failing =>
        FailedSoFar(role, d, run);
        FailedThenMore(role, d, run, [], a);
        assert [] + [a] == [a];
        if !d.redelivered { FailedBegins(role, d, run + [a], [a], Returned(a.ok)); }
      case DeadLettered =>
        FailedThenMore(role, d, run, [Attempt(DeadLetter(d.body), true)], a);
        assert [Attempt(DeadLetter(d.body), true)] + [a] == Burial(d);
      case DeadLetterNoted =>
        FailedThenMore(role, d, run, Burial(d), a);
        if a.ok { FailedBegins(role, d, run + [a], Burial(d) + [a], Buried); }
      case DeadLetterFailing =>
        if FailedThen(role, d, run, [Attempt(DeadLetter(d.body), false)]) {
          FailedThenMore(role, d, run, [Attempt(DeadLetter(d.body), false)], a);
          FailedBegins(role, d, run + [a], [Attempt(DeadLetter(d.body), false)] + [a], NotBuried(a.ok));
        } else {
          FailedThenMore(role, d, run, Burial(d) + [Attempt(Ack, false)], a);
          FailedBegins(role, d, run + [a], Burial(d) + [Attempt(Ack, false)] + [a], NotAcked(a.ok));
        }
    }
  }

  lemma {:induction false} RunsHaveShape(role: Role, d: Delivery, run: seq<Attempt>)
    requires Legal(role, d, run)
    ensures Shape(role, d, Run(role, d, run), run)
    decreases |run|
  {
    hide Shape, JobOf, AnswerOf, StatusOf;
    if run == [] {
      FreshShape(role, d);
    } else {
      var init, a := run[..|run| - 1], run[|run| - 1];
      var p := Run(role, d, init);
      assert run == init + [a];
      RunsHaveShape(role, d, init);
      if p.Fresh? || p.Announced? || p.Accepted? {
        EarlyStep(role, d, p, init, a);
      } else if p.Worked? {
        WorkedStep(role, d, p, init, a);
      } else if p.ResultOut? || p.PassedOn? {
        CompletingStep(role, d, p, init, a);
      } else if p.Noted? {
        NotedStep(role, d, p, init, a);
      } else {
        TroubleStep(role, d, p, init, a);
      }
    }
  }

  lemma FreshShape(role: Role, d: Delivery)
    ensures Shape(role, d, Fresh, [])
  {
  }

  lemma SuccessBegins(role: Role, d: Delivery, run: seq<Attempt>, w: HandlerRun, sent: bool)
    requires run <= Whole(role, d, Success(w, sent))
    ensures Begins(role, d, run)
  {
    hide Whole;
    assert Possible(role, d, Success(w, sent));
  }

  lemma EarlyBegins(role: Role, d: Delivery, p: Phase, run: seq<Attempt>)
    requires Shape(role, d, p, run) && (p.Fresh? || p.Announced? || p.Accepted?)
    ensures Begins(role, d, run)
  {
    hide JobOf, AnswerOf, StatusOf, Completed, Begins;
    SuccessBegins(role, d, run, HandlerRun("", Raised(""), EmbeddingRaised(""), ""), true);
  }

  lemma LateBegins(role: Role, d: Delivery, p: Phase, run: seq<Attempt>)
    requires Shape(role, d, p, run) && (p.Worked? || p.ResultOut? || p.PassedOn? || p.Noted?)
    ensures Begins(role, d, run)
  {
    hide JobOf, AnswerOf, StatusOf, Handled, Completed, Begins;
    if p.Worked? {
      var w :| p.answer == AnswerOf(role, d, w) && run == Handled(role, d, w);
      SuccessBegins(role, d, run, w, true);
    } else if p.Noted? {
      var w, sent :| run == Handled(role, d, w) + Completed(AnswerOf(role, d, w), sent);
      SuccessBegins(role, d, run, w, sent);
    } else {
      var n := if p.PassedOn? && p.answer.next.Some? then 2 else 1;
      assert DidComplete(role, d, run, p.answer, n);
      var w, sent :|
        && p.answer == AnswerOf(role, d, w) && n <= |Completed(p.answer, sent)|
        && run == Handled(role, d, w) + Completed(p.answer, sent)[..n];
      SuccessBegins(role, d, run, w, sent);
    }
  }

  lemma {:induction false} BadShapeBegins(role: Role, d: Delivery, p: Phase, run: seq<Attempt>)
    requires Shape(role, d, p, run) && (p.Failing? || p.DeadLettered? || p.DeadLetterNoted? || p.DeadLetterFailing?)
    ensures Begins(role, d, run)
  {
    hide JobOf, AnswerOf, StatusOf, Failed, FailedThen, Begins;
    if p.Failing? {
      FailedSoFar(role, d, run);
      FailedBegins(role, d, run, [], if d.redelivered then Buried else Returned(true));
    } else if p.DeadLettered? {
      FailedBegins(role, d, run, [Attempt(DeadLetter(d.body), true)], Buried);
    } else if p.DeadLetterNoted? {
      FailedBegins(role, d, run, Burial(d), Buried);
    } else if FailedThen(role, d, run, [Attempt(DeadLetter(d.body), false)]) {
      FailedBegins(role, d, run, [Attempt(DeadLetter(d.body), false)], NotBuried(true));
    } else {
      FailedBegins(role, d, run, Burial(d) + [Attempt(Ack, false)], NotAcked(true));
    }
  }

  /** The protocol written out: the legal runs are exactly the beginnings of whole turns. */
  lemma {:induction false} LegalIff(role: Role, d: Delivery, run: seq<Attempt>)
    ensures Legal(role, d, run) <==> Begins(role, d, run)
  {
    hide Shape, Run, Whole, Possible;
    if Legal(role, d, run) {
      RunsHaveShape(role, d, run);
      var p := Run(role, d, run);
      if p.Failing? || p.DeadLettered? || p.DeadLetterNoted? || p.DeadLetterFailing? {
        BadShapeBegins(role, d, p, run);
      } else if Settled(p) || p.Stuck? {
        SettledBegins(role, d, p, run);
      } else if p.Fresh? || p.Announced? || p.Accepted? {
        EarlyBegins(role, d, p, run);
      } else {
        LateBegins(role, d, p, run);
      }
    }
    if Begins(role, d, run) {
      var t :| Possible(role, d, t) && run <= Whole(role, d, t);
      TurnRuns(role, d, t);
      PrefixIsLegal(role, d, Whole(role, d, t), |run|);
      assert Whole(role, d, t)[..|run|] == run;
    }
  }

  lemma SettledBegins(role: Role, d: Delivery, p: Phase, run: seq<Attempt>)
    requires Shape(role, d, p, run) && (Settled(p) || p.Stuck?)
    ensures Begins(role, d, run)
  {
    hide Begins;
  }
}
