/** The worker's consumer: completions in any order, failing calls, closing channels, late callbacks, stop and drain. */
module WorkerConsumer {
  import opened Options
  import opened Projection
  import opened Handler
  import opened DeliveryProtocol
  import L = LegalRuns

  type Future = nat

  /** One attempt, and the delivery it was made for. */
  datatype Entry = Entry(d: Delivery, attempt: Attempt)

  /** The attempts made for one delivery. */
  function For(trace: seq<Entry>, d: Delivery): seq<Attempt> {
    if trace == [] then []
    else
      var init, last := For(trace[..|trace| - 1], d), trace[|trace| - 1];
      if last.d == d then init + [last.attempt] else init
  }

  function PhaseIn(role: Role, trace: seq<Entry>, d: Delivery): Phase {
    Run(role, d, For(trace, d))
  }

  /** One more attempt moves its own delivery by one step of the protocol and leaves the others alone. */
  lemma OneMore(role: Role, trace: seq<Entry>, d: Delivery, a: Attempt)
    ensures For(trace + [Entry(d, a)], d) == For(trace, d) + [a]
    ensures PhaseIn(role, trace + [Entry(d, a)], d) == Next(role, d, PhaseIn(role, trace, d), a)
    ensures forall d' :: d' != d ==> For(trace + [Entry(d, a)], d') == For(trace, d')
    ensures forall d' :: d' != d ==> PhaseIn(role, trace + [Entry(d, a)], d') == PhaseIn(role, trace, d')
  {
    var more := trace + [Entry(d, a)];
    assert more[..|more| - 1] == trace;
    var run := For(more, d);
    assert run[..|run| - 1] == For(trace, d);
  }

  lemma OnlyOnceFresh(role: Role, trace: seq<Entry>, d: Delivery)
    requires PhaseIn(role, trace, d) == Fresh
    ensures For(trace, d) == []
  {
  }

  /** The broker connection as the worker meets it: any call may fail, and may find its channel closed. */
  class Network {
    var open: set<nat>
    var connected: bool
    var trace: seq<Entry>

    constructor ()
      ensures trace == [] && open == {} && !connected
    {
      open, connected, trace := {}, false, [];
    }

    /** A publish, ack or nack on the delivery's channel; `ok` says that it returned rather than raised. */
    method Call(d: Delivery, op: Op) returns (ok: bool)
      modifies this
      ensures trace == old(trace) + [Entry(d, Attempt(op, ok))]
      ensures open <= old(open)
      ensures ok ==> d.channel in old(open)
    {
      var works: bool := *;
      var closes: bool := *;
      ok := works && d.channel in open;
      if closes {
        open := open - {d.channel};
      }
      trace := trace + [Entry(d, Attempt(op, ok))];
    }

    /** Something that happens off the network: running the handler, writing statistics. */
    method Record(d: Delivery, op: Op, ok: bool)
      modifies this`trace
      ensures trace == old(trace) + [Entry(d, Attempt(op, ok))]
    {
      trace := trace + [Entry(d, Attempt(op, ok))];
    }

    method Close()
      modifies this`open, this`connected
      ensures open == {} && !connected
    {
      open, connected := {}, false;
    }
  }

  class Consumer {
    const role: Role
    const concurrency: nat
    const net: Network
    var pending: map<Future, Delivery>
    var stopping: bool
    var executor: bool
    /** Deliveries whose completion could not be handed to the broker thread. */
    ghost var dropped: set<Delivery>

    constructor (role: Role, concurrency: nat, net: Network)
      requires net.trace == []
      ensures this.role == role && this.concurrency == concurrency && this.net == net
      ensures pending == map[] && !stopping && !executor && dropped == {}
      ensures Valid() && AtRest()
    {
      this.role, this.concurrency, this.net := role, concurrency, net;
      pending, stopping, executor, dropped := map[], false, false, {};
    }

    ghost function PhaseOf(d: Delivery): Phase
      reads net
    {
      PhaseIn(role, net.trace, d)
    }

    /** Every delivery follows the protocol, and the pending ones wait for their handler, each once. */
    ghost predicate Valid()
      reads this`pending, this`dropped, net
    {
      && (forall d :: PhaseIn(role, net.trace, d) != Illegal)
      && (forall f :: f in pending ==> PhaseIn(role, net.trace, pending[f]) == Accepted)
      && (forall f, g :: f in pending && g in pending && pending[f] == pending[g] ==> f == g)
    }

    ghost predicate Waiting(d: Delivery)
      reads this`pending
    {
      exists f :: f in pending && pending[f] == d
    }

    /** No delivery is forgotten: it is settled, pending, or the broker will requeue it. */
    ghost predicate Accounted(d: Delivery)
      reads this`pending, this`dropped, net
    {
      var p := PhaseIn(role, net.trace, d);
      p.Fresh? || Settled(p) || Waiting(d) || Abandoned(d)
    }

    /** The cases in which the worker gives a delivery up unsettled. */
    ghost predicate Abandoned(d: Delivery)
      reads this`pending, this`dropped, net
    {
      d.channel !in net.open || PhaseIn(role, net.trace, d).Stuck? || d in dropped
    }

    ghost predicate AtRest()
      reads this`pending, this`dropped, net
    {
      forall d :: Accounted(d)
    }

    ghost predicate AtRestBut(d0: Delivery)
      reads this`pending, this`dropped, net
    {
      forall d :: d != d0 ==> Accounted(d)
    }

    /**
      What the invariant means for the attempts made so far, in whatever order things happened: no settlement is
      tried before a publish or a failure, none follows a successful one, and only a redelivery is dead-lettered.
     */
    lemma TraceIsSafe(d: Delivery, i: nat)
      requires Valid() && i < |For(net.trace, d)|
      ensures var run := For(net.trace, d);
        && (run[i].op.Ack? ==> Published(run[..i]))
        && (run[i].op.Nack? ==> HasFailure(run[..i]))
        && (run[i].op.DeadLetter? ==> d.redelivered && HasFailure(run[..i]))
        && (Settles(run[i]) ==> i == |run| - 1)
    {
      var run := For(net.trace, d);
      assert PhaseIn(role, net.trace, d) != Illegal;
      hide Published, HasFailure, Settles;
      if run[i].op.Ack? {
        AckOnlyAfterPublish(role, d, run, i);
      }
      if run[i].op.Nack? {
        NackOnlyAfterFailure(role, d, run, i);
      }
      if run[i].op.DeadLetter? {
        DeadLetterOnlyRedelivered(role, d, run, i);
      }
      if Settles(run[i]) {
        SettlesLast(role, d, run, i);
      }
    }

    /** Whatever happened in whatever order, the attempts for a delivery are those of one turn, as far as it got. */
    lemma TraceIsATurn(d: Delivery)
      requires Valid()
      ensures L.Begins(role, d, For(net.trace, d))
    {
      assert PhaseIn(role, net.trace, d) != Illegal;
      L.LegalIff(role, d, For(net.trace, d));
    }

    /** `connect`, on a channel no delivery has come from yet. */
    method Connect(channel: nat)
      requires Valid() && AtRest()
      requires forall d: Delivery :: d.channel == channel ==> PhaseIn(role, net.trace, d).Fresh?
      modifies this`stopping, net`open, net`connected
      ensures Valid() && AtRest() && !stopping && net.connected
      ensures net.open == old(net.open) + {channel}
    {
      stopping := false;
      net.open, net.connected := net.open + {channel}, true;
      forall d ensures Accounted(d) {
        assert old(Accounted(d));
      }
    }

    /** The broker closes a channel at any time; what was delivered on it is requeued there. */
    method LoseChannel(channel: nat)
      requires Valid() && AtRest()
      modifies net`open
      ensures Valid() && AtRest() && net.open == old(net.open) - {channel}
    {
      net.open := net.open - {channel};
      forall d ensures Accounted(d) {
        assert old(Accounted(d));
      }
    }

    /** A method worked on `d` only, and kept everyone else accounted for. */
    twostate predicate OnlyTouched(d: Delivery)
      reads this`pending, this`dropped, net
    {
      && (forall d' :: d' != d ==> For(net.trace, d') == For(old(net.trace), d'))
      && For(old(net.trace), d) <= For(net.trace, d)
      && net.open <= old(net.open)
      && Valid() && AtRestBut(d)
    }

    /** A call on the channel, as one step of the protocol. */
    method Attempted(d: Delivery, op: Op) returns (ok: bool)
      requires Valid() && !Waiting(d) && AtRestBut(d)
      requires forall b :: Next(role, d, PhaseOf(d), Attempt(op, b)) != Illegal
      modifies net
      ensures OnlyTouched(d)
      ensures PhaseOf(d) == Next(role, d, old(PhaseOf(d)), Attempt(op, ok))
      ensures For(net.trace, d) == For(old(net.trace), d) + [Attempt(op, ok)]
    {
      OneMore(role, net.trace, d, Attempt(op, true));
      OneMore(role, net.trace, d, Attempt(op, false));
      ok := net.Call(d, op);
      forall d' | d' != d ensures Accounted(d') {
        assert old(Accounted(d'));
      }
    }

    method Noted(d: Delivery, op: Op, ok: bool)
      requires Valid() && !Waiting(d) && AtRestBut(d)
      requires Next(role, d, PhaseOf(d), Attempt(op, ok)) != Illegal
      modifies net`trace
      ensures OnlyTouched(d) && net.open == old(net.open)
      ensures PhaseOf(d) == Next(role, d, old(PhaseOf(d)), Attempt(op, ok))
      ensures For(net.trace, d) == For(old(net.trace), d) + [Attempt(op, ok)]
    {
      OneMore(role, net.trace, d, Attempt(op, ok));
      net.Record(d, op, ok);
      forall d' | d' != d ensures Accounted(d') {
        assert old(Accounted(d'));
      }
    }

    /**
      `_handle_processing_exception`: a first delivery goes back to the queue, a redelivered one to the
      dead-letter queue. `raised` says that the exception goes on to the caller.
     */
    method HandleException(d: Delivery) returns (raised: bool)
      requires Valid() && !Waiting(d) && AtRestBut(d)
      requires PhaseOf(d) == Failing
      modifies net
      ensures OnlyTouched(d)
      ensures !raised ==> Settled(PhaseOf(d))
      ensures raised ==> d.channel !in net.open || PhaseOf(d) == Stuck
      ensures d.channel !in old(net.open) ==> raised && net.trace == old(net.trace)
      ensures !d.redelivered && d.channel in old(net.open) ==> PhaseOf(d) == if raised then Stuck else Requeued
      ensures d.channel in old(net.open) ==>
                var n := |For(old(net.trace), d)|;
                n < |For(net.trace, d)| && For(net.trace, d)[n].op == if d.redelivered then DeadLetter(d.body) else Nack
    {
      hide Valid, Waiting, AtRestBut, PhaseIn, For;
      if d.channel !in net.open {
        return true;
      }
      if !d.redelivered {
        var ok := Attempted(d, Nack);
        return !ok;
      }
      var ok := Attempted(d, DeadLetter(d.body));
      if ok {
        Noted(d, Note("error"), true);
        ok := Attempted(d, Ack);
      }
      if ok {
        return false;
      }
      if d.channel !in net.open {
        return true;
      }
      ok := Attempted(d, Nack);
      return !ok;
    }

    /** `_maybe_publish_llm_followup`: a due follow-up is published; that the publish may fail is only logged. */
    method PassOn(d: Delivery, answer: Answer) returns (sent: bool)
      requires Valid() && !Waiting(d) && AtRestBut(d)
      requires PhaseOf(d) == if answer.next.Some? then ResultOut(answer) else Phase.PassedOn(answer)
      modifies net
      ensures OnlyTouched(d) && PhaseOf(d) == Phase.PassedOn(answer)
      ensures For(net.trace, d) == For(old(net.trace), d)
                + (if answer.next.Some? then [Attempt(FollowUp(answer.next.value), sent)] else [])
    {
      hide Valid, Waiting, AtRestBut, PhaseIn, For;
      sent := true;
      if answer.next.Some? {
        sent := Attempted(d, FollowUp(answer.next.value));
      }
    }

    /** What completing a delivery adds to its attempts: everything up to the first failure other than the follow-up's. */
    ghost predicate CompletedAs(answer: Answer, raised: bool, before: seq<Attempt>, after: seq<Attempt>) {
      || (raised && after == before + [Attempt(Result(answer.message), false)])
      || exists sent :: after == before + L.Completed(answer, sent) + [Attempt(Ack, !raised)]
    }

    /** `_complete_delivery`: result, follow-up, statistics, acknowledgement, in this order. */
    method Complete(d: Delivery, answer: Answer) returns (raised: bool)
      requires Valid() && !Waiting(d) && AtRestBut(d)
      requires PhaseOf(d) == Worked(answer)
      modifies net
      ensures OnlyTouched(d)
      ensures PhaseOf(d) == if raised then Failing else Acked
      ensures CompletedAs(answer, raised, For(old(net.trace), d), For(net.trace, d))
    {
      hide Valid, Waiting, AtRestBut, PhaseIn, For, Settled;
      ghost var before := For(net.trace, d);
      var ok := Attempted(d, Result(answer.message));
      if !ok {
        return true;
      }
      var sent := PassOn(d, answer);
      Noted(d, Note(StatusOf(answer.message)), true);
      ok := Attempted(d, Ack);
      assert For(net.trace, d) == before + L.Completed(answer, sent) + [Attempt(Ack, ok)];
      return !ok;
    }

    /** The first attempts for a delivery: only an announcement can go wrong. */
    ghost function Start(d: Delivery, ok: bool): seq<Attempt> {
      var noted := Attempt(Note("processing"), true);
      if role.Extractor? && role.announces then
        if ok then [Attempt(Announce(JobOf(role, d)), true), noted] else [Attempt(Announce(JobOf(role, d)), false)]
      else if ok then [noted] else []
    }

    /** The handler's end as an attempt; `work` is empty when the future, or the handler, raised. */
    ghost function Ran(work: Option<HandlerRun>): Attempt {
      if work.Some? then Attempt(Op.Work(work.value), true) else Attempt(WorkRaised, false)
    }

    /** `_persist_processing`: the start is announced, then noted. */
    method PersistProcessing(d: Delivery) returns (raised: bool)
      requires Valid() && !Waiting(d) && AtRestBut(d)
      requires PhaseOf(d) == Fresh
      modifies net
      ensures OnlyTouched(d)
      ensures PhaseOf(d) == if raised then Failing else Accepted
      ensures For(net.trace, d) == Start(d, !raised)
      ensures raised ==> role.Extractor? && role.announces
    {
      hide Valid, Waiting, AtRestBut, PhaseIn, For;
      OnlyOnceFresh(role, net.trace, d);
      if role.Extractor? && role.announces {
        var ok := Attempted(d, Announce(JobOf(role, d)));
        if !ok {
          return true;
        }
      }
      Noted(d, Note("processing"), true);
      return false;
    }

    /** What follows the handler's end. */
    method Conclude(d: Delivery, work: Option<HandlerRun>) returns (raised: bool)
      requires Valid() && !Waiting(d) && AtRestBut(d)
      requires PhaseOf(d) == Accepted
      modifies net
      ensures OnlyTouched(d) && AtRest()
      ensures For(old(net.trace), d) + [Ran(work)] <= For(net.trace, d)
      ensures !raised ==> Settled(PhaseOf(d))
      ensures raised ==> d.channel !in net.open || PhaseOf(d) == Stuck
    {
      hide CompletedAs, For, PhaseIn, AnswerOf, Waiting;
      var failed := true;
      if work.Some? {
        Noted(d, Op.Work(work.value), true);
        failed := Complete(d, AnswerOf(role, d, work.value));
      } else {
        Noted(d, WorkRaised, false);
      }
      raised := false;
      if failed {
        raised := HandleException(d);
      }
    }

    /** `_finish_future`: a future no longer pending is a late callback, and nothing happens. */
    method FinishFuture(f: Future, work: Option<HandlerRun>) returns (raised: bool)
      requires Valid() && AtRest()
      modifies this`pending, net
      ensures Valid() && AtRest()
      ensures pending == old(pending) - {f}
      ensures net.open <= old(net.open)
      ensures f !in old(pending) ==> !raised && net.trace == old(net.trace) && net.open == old(net.open)
      ensures f in old(pending) ==>
                var d := old(pending)[f];
                && (if raised then d.channel !in net.open || PhaseOf(d) == Stuck else Settled(PhaseOf(d)))
                && For(old(net.trace), d) + [Ran(work)] <= For(net.trace, d)
                && forall d' :: d' != d ==> For(net.trace, d') == For(old(net.trace), d')
    {
      if f !in pending {
        return false;
      }
      var d := pending[f];
      pending := pending - {f};
      forall d' | d' != d ensures Accounted(d') {
        assert old(Accounted(d'));
        if old(Waiting(d')) {
          var g :| g in old(pending) && old(pending)[g] == d';
          assert g in pending;
        }
      }
      raised := Conclude(d, work);
    }

    /**
      `_on_future_done`, on the executor's thread: the completion is handed to the broker thread, unless
      stopping has begun, or the channel, the connection or the hand-over itself (`accepts`) fails.
     */
    method OnFutureDone(f: Future, accepts: bool) returns (scheduled: bool)
      requires Valid() && AtRest()
      modifies this`pending, this`dropped
      ensures Valid() && AtRest()
      ensures scheduled <==> !stopping && f in old(pending) && old(pending)[f].channel in net.open && net.connected && accepts
      ensures pending == if scheduled || stopping then old(pending) else old(pending) - {f}
      ensures dropped <= old(dropped) + old(pending).Values
      ensures forall d :: d in dropped - old(dropped) ==> !net.connected || !accepts
    {
      if stopping || f !in pending {
        assert pending == pending - {f} || stopping;
        return false;
      }
      var d := pending[f];
      if d.channel in net.open && net.connected && accepts {
        return true;
      }
      pending := pending - {f};
      if d.channel in net.open {
        dropped := dropped + {d};
      }
      scheduled := false;
      forall d' ensures Accounted(d') {
        assert old(Accounted(d'));
        if d' != d && old(Waiting(d')) {
          var g :| g in old(pending) && old(pending)[g] == d';
          assert g in pending;
        }
      }
    }

    /** The start was announced and noted, and the delivery is pending or was concluded on the spot. */
    twostate predicate TakenOn(d: Delivery, f: Future, submits: bool, work: Option<HandlerRun>)
      reads this`pending, net
    {
      if concurrency > 1 && submits then
        For(net.trace, d) == Start(d, true) && pending == old(pending)[f := d]
      else
        && Start(d, true) + [Ran(if concurrency > 1 then None else work)] <= For(net.trace, d)
        && pending == old(pending)
    }

    /** The start could not be announced. */
    twostate predicate Refused(d: Delivery)
      reads this`pending, net
    {
      role.Extractor? && role.announces && Start(d, false) <= For(net.trace, d) && pending == old(pending)
    }

    lemma NotWaiting(d: Delivery)
      requires Valid() && AtRest() && PhaseOf(d) == Fresh
      ensures !Waiting(d) && AtRestBut(d)
    {
    }

    method AddPending(d: Delivery, f: Future)
      requires Valid() && !Waiting(d) && AtRestBut(d)
      requires PhaseOf(d) == Accepted && f !in pending
      modifies this`pending
      ensures Valid() && AtRest()
      ensures pending == old(pending)[f := d]
    {
      pending := pending[f := d];
      forall d' ensures Accounted(d') {
        if d' == d {
          assert pending[f] == d;
        } else {
          assert old(Accounted(d'));
          if old(Waiting(d')) {
            var g :| g in old(pending) && old(pending)[g] == d';
            assert pending[g] == d';
          }
        }
      }
    }

    /** The concurrent branch: the handler goes to the pool, and a pool that does not take it counts as a raising handler. */
    method Submit(d: Delivery, f: Future, submits: bool) returns (raised: bool)
      requires Valid() && !Waiting(d) && AtRestBut(d)
      requires PhaseOf(d) == Accepted && f !in pending
      modifies this`pending, this`executor, net
      ensures Valid() && AtRest()
      ensures forall d' :: d' != d ==> For(net.trace, d') == For(old(net.trace), d')
      ensures submits ==> !raised && net.trace == old(net.trace) && pending == old(pending)[f := d]
      ensures !submits ==> pending == old(pending) && For(old(net.trace), d) + [Ran(None)] <= For(net.trace, d)
      ensures !submits && !raised ==> Settled(PhaseOf(d))
      ensures raised ==> d.channel !in net.open || PhaseOf(d) == Stuck
    {
      hide Waiting, For, PhaseIn, Settled;
      executor := true;
      raised := false;
      if submits {
        AddPending(d, f);
      } else {
        raised := Conclude(d, None);
      }
    }

    /**
      `_on_extraction_message` and `_on_llm_message`: a single-job worker runs the handler at once, a
      concurrent one submits it, and the delivery is pending from then on. `submits` says that the pool took it.
     */
    method OnMessage(d: Delivery, f: Future, submits: bool, work: Option<HandlerRun>) returns (raised: bool)
      requires Valid() && AtRest()
      requires PhaseOf(d) == Fresh && f !in pending
      modifies this`pending, this`executor, net
      ensures Valid() && AtRest()
      ensures forall d' :: d' != d ==> For(net.trace, d') == For(old(net.trace), d')
      ensures raised ==> d.channel !in net.open || PhaseOf(d) == Stuck
      ensures !raised ==> Settled(PhaseOf(d)) || (f in pending && pending[f] == d)
      ensures TakenOn(d, f, submits, work) || Refused(d)
    {
      NotWaiting(d);
      hide Valid, Waiting, AtRest, AtRestBut, Accounted, For, PhaseIn;
      var failed := PersistProcessing(d);
      if failed {
        raised := HandleException(d);
        return;
      }
      if concurrency <= 1 {
        raised := Conclude(d, work);
        return;
      }
      raised := Submit(d, f, submits);
    }

    /** Everything pending at the `start` still is, or is settled by now. */
    ghost predicate PendingOrSettled(start: map<Future, Delivery>)
      reads this`pending, net
    {
      && pending.Keys <= start.Keys
      && (forall f, g :: f in start && g in start && start[f] == start[g] ==> f == g)
      && forall f :: f in start ==>
           if f in pending then pending[f] == start[f] else Settled(PhaseIn(role, net.trace, start[f]))
    }

    /** One round of the drain's inner loop. */
    method DrainOne(ghost start: map<Future, Delivery>, f: Future, work: Option<HandlerRun>) returns (raised: bool)
      requires Valid() && AtRest() && PendingOrSettled(start) && f in pending
      modifies this`pending, net
      ensures Valid() && AtRest() && net.open <= old(net.open)
      ensures pending == old(pending) - {f}
      ensures !raised ==> PendingOrSettled(start)
    {
      hide Valid, AtRest;
      raised := FinishFuture(f, work);
    }

    /** `_drain_pending_futures`: every pending future is finished, or an exception stops the drain. */
    method Drain(results: Future -> Option<HandlerRun>) returns (raised: bool)
      requires Valid() && AtRest()
      modifies this`pending, net
      ensures Valid() && AtRest()
      ensures pending.Keys <= old(pending).Keys && net.open <= old(net.open)
      ensures !raised ==> pending == map[]
      ensures !raised ==> forall f :: f in old(pending) ==> Settled(PhaseOf(old(pending)[f]))
    {
      ghost var start := pending;
      raised := false;
      while pending != map[]
        invariant Valid() && AtRest() && net.open <= old(net.open) && PendingOrSettled(start)
        decreases |pending.Keys|
      {
        hide Valid, AtRest, PendingOrSettled;
        var futures := pending.Keys;
        label Round:
        while futures != {}
          invariant Valid() && AtRest() && net.open <= old(net.open) && PendingOrSettled(start)
          invariant futures == pending.Keys <= old@Round(pending.Keys) && pending.Keys <= start.Keys
        {
          var f :| f in futures;
          raised := DrainOne(start, f, results(f));
          futures := futures - {f};
          if raised {
            return;
          }
        }
      }
    }

    /** `stop`: no completion is scheduled from now on; what is pending is finished here. */
    method Stop(results: Future -> Option<HandlerRun>) returns (raised: bool)
      requires Valid() && AtRest()
      modifies this`pending, this`stopping, this`executor, net
      ensures Valid() && AtRest() && stopping
      ensures !raised ==> pending == map[] && !executor && !net.connected
      ensures !raised ==> forall f :: f in old(pending) ==> Settled(PhaseOf(old(pending)[f]))
    {
      stopping := true;
      raised := Drain(results);
      if !raised {
        executor := false;
        label Drained:
        if net.connected {
          net.Close();
          forall d ensures Accounted(d) {
            assert old@Drained(Accounted(d));
          }
        }
      }
    }
  }
}
