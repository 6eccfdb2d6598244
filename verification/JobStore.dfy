/** The worker's job store: what one event does to rows and totals, and the batching writer that does it. */
module JobStore {
  import opened Options
  import opened Text
  import opened JobStatus

  type Time = nat

  /**
    An event as queued; a field that is missing or not a string is `None`. `details` stands for the columns
    that are copied as they are, `writtenAt` for the clock when the event is written.
   */
  datatype Event = Event(jobId: Option<string>, status: Option<string>, duration: real,
                         receivedAt: Option<Time>, finishedAt: Option<Time>, details: string, writtenAt: Time)

  datatype Job = Job(jobId: string, status: Status, duration: real, receivedAt: Time, finishedAt: Option<Time>, details: string)

  datatype Row = Row(status: Status, suppress: bool, duration: real, receivedAt: Time, finishedAt: Option<Time>, details: string)

  datatype Totals = Totals(processed: nat, failed: nat, duration: real, lastAt: Option<Time>)

  datatype Store = Store(rows: map<string, Row>, totals: Totals)

  function NonEmpty(v: Option<string>, default: string): string {
    if v.Some? && !AllSpace(v.value) then Strip(v.value) else default
  }

  function Or(a: Option<Time>, b: Time): Time {
    if a.Some? then a.value else b
  }

  /** `_event_to_job`. */
  function EventToJob(e: Event): Job {
    var status := Read(NonEmpty(e.status, "unknown"));
    var jobId := NonEmpty(e.jobId, "unknown");
    if status == Processing then Job(jobId, status, e.duration, Or(e.receivedAt, e.writtenAt), None, e.details)
    else
      Job(jobId, status, e.duration,
          if e.receivedAt.Some? then e.receivedAt.value else Or(e.finishedAt, e.writtenAt),
          if IsTerminal(status) && e.finishedAt.None? then Some(e.writtenAt) else e.finishedAt, e.details)
  }

  /** The upsert: a first event is inserted as it is, a later one keeps the first `received_at` unless it starts a run. */
  function Upsert(prior: Option<Row>, job: Job, suppress: bool): Row {
    if prior.None? then Row(job.status, suppress, job.duration, job.receivedAt, job.finishedAt, job.details)
    else Row(job.status, suppress, job.duration,
             if job.status == Processing then job.receivedAt else prior.value.receivedAt,
             if IsTerminal(job.status) then job.finishedAt else None,
             job.details)
  }

  function Later(a: Option<Time>, b: Option<Time>): Option<Time> {
    if b.None? then a
    else if a.None? || b.value > a.value then b
    else a
  }

  function Prior(rows: map<string, Row>, j: string): Option<Row> {
    if j in rows then Some(rows[j]) else None
  }

  function DeltaFor(prior: Option<Row>, job: Job): Delta {
    if prior.None? then Transition(None, false, job.status, job.duration, job.finishedAt)
    else Transition(Some(prior.value.status), prior.value.suppress, job.status, job.duration, job.finishedAt)
  }

  function AddDelta(t: Totals, d: Delta): Totals {
    Totals(t.processed + d.ok, t.failed + d.err, t.duration + d.duration, Later(t.lastAt, d.finishedAt))
  }

  /** One event, on its own. */
  function ApplyOne(s: Store, e: Event): Store {
    var job := EventToJob(e);
    var prior := Prior(s.rows, job.jobId);
    var d := DeltaFor(prior, job);
    Store(s.rows[job.jobId := Upsert(prior, job, d.suppress)], AddDelta(s.totals, d))
  }

  function ApplyAll(s: Store, es: seq<Event>): Store {
    if es == [] then s else ApplyOne(ApplyAll(s, es[..|es| - 1]), es[|es| - 1])
  }

  lemma ApplySnoc(s: Store, es: seq<Event>, e: Event)
    ensures ApplyAll(s, es + [e]) == ApplyOne(ApplyAll(s, es), e)
  {
    assert (es + [e])[..|es|] == es;
  }

  lemma {:induction false} ApplyConcat(s: Store, es: seq<Event>, fs: seq<Event>)
    ensures ApplyAll(s, es + fs) == ApplyAll(ApplyAll(s, es), fs)
    decreases |fs|
  {
    if fs == [] {
      assert es + fs == es;
    } else {
      var init, last := fs[..|fs| - 1], fs[|fs| - 1];
      assert es + fs == (es + init) + [last];
      ApplySnoc(s, es + init, last);
      ApplyConcat(s, es, init);
    }
  }

  // ----- Totals are sums over the events that count -----

  /** The statuses one job has gone through. */
  function History(es: seq<Event>, j: string): seq<Status> {
    if es == [] then []
    else
      var init, job := History(es[..|es| - 1], j), EventToJob(es[|es| - 1]);
      if job.jobId == j then init + [job.status] else init
  }

  /** Does the `i`-th event count for its job? */
  predicate EventCounts(es: seq<Event>, i: nat)
    requires i < |es|
  {
    var job := EventToJob(es[i]);
    var h := History(es[..i], job.jobId);
    Counts(h + [job.status], |h|)
  }

  /** The sums and the maximum over exactly the events that count. */
  function Sums(es: seq<Event>): Totals {
    if es == [] then Totals(0, 0, 0.0, None)
    else
      var init, job := Sums(es[..|es| - 1]), EventToJob(es[|es| - 1]);
      if !EventCounts(es, |es| - 1) then init
      else if job.status == Ok then
        Totals(init.processed + 1, init.failed, init.duration + job.duration, Later(init.lastAt, job.finishedAt))
      else Totals(init.processed, init.failed + 1, init.duration, Later(init.lastAt, job.finishedAt))
  }

  const EMPTY := Store(map[], Totals(0, 0, 0.0, None))

  function LatchOf(rows: map<string, Row>, j: string): Latch {
    if j in rows then Latch(Some(rows[j].status), rows[j].suppress) else Latch(None, false)
  }

  /** Each row's status and latch are those of its job's history, and the totals are the sums. */
  lemma {:induction false} StoreIsReadOffHistories(es: seq<Event>)
    ensures var s := ApplyAll(EMPTY, es);
      && s.totals == Sums(es)
      && forall j :: LatchAfter(History(es, j)) == LatchOf(s.rows, j)
    decreases |es|
  {
    if es != [] {
      var init, e := es[..|es| - 1], es[|es| - 1];
      StoreIsReadOffHistories(init);
      SumsSnoc(es);
      OneLatch(ApplyAll(EMPTY, init), e);
      hide Transition, EventToJob, ApplyOne, Sums;
      DeltaCounts(History(init, EventToJob(e).jobId), EventToJob(e));
    }
  }

  /** One event adds to the sums what its transition says. */
  lemma SumsSnoc(es: seq<Event>)
    requires es != []
    ensures var init, job := es[..|es| - 1], EventToJob(es[|es| - 1]);
      var before := LatchAfter(History(init, job.jobId));
      Sums(es) == AddDelta(Sums(init), Transition(before.status, before.suppress, job.status, job.duration, job.finishedAt))
  {
    var init, job := es[..|es| - 1], EventToJob(es[|es| - 1]);
    DeltaCounts(History(init, job.jobId), job);
    hide Transition, EventToJob, Counts, LatchAfter, History;
  }

  /** One event moves the totals and its own row's latch by one transition. */
  lemma OneLatch(s: Store, e: Event)
    ensures var job := EventToJob(e);
      var before := LatchOf(s.rows, job.jobId);
      var d := Transition(before.status, before.suppress, job.status, job.duration, job.finishedAt);
      && ApplyOne(s, e).totals == AddDelta(s.totals, d)
      && LatchOf(ApplyOne(s, e).rows, job.jobId) == Latch(Some(job.status), d.suppress)
      && forall j :: j != job.jobId ==> LatchOf(ApplyOne(s, e).rows, j) == LatchOf(s.rows, j)
  {
    hide EventToJob, Transition;
  }

  /** Whether, and as what, an event counts does not depend on its duration or time. */
  lemma DeltaCounts(h: seq<Status>, job: Job)
    ensures var before := LatchAfter(h);
      var d := Transition(before.status, before.suppress, job.status, job.duration, job.finishedAt);
      && d.suppress == LatchAfter(h + [job.status]).suppress
      && (if !Counts(h + [job.status], |h|) then d.(suppress := false) == Delta(0, 0, 0.0, None, false)
          else if job.status == Ok then d == Delta(1, 0, job.duration, job.finishedAt, false)
          else d == Delta(0, 1, 0.0, job.finishedAt, false))
  {
    assert (h + [job.status])[..|h|] == h;
  }

  // ----- A row's times -----

  predicate IsFor(es: seq<Event>, i: nat, j: string)
    requires i < |es|
  {
    EventToJob(es[i]).jobId == j
  }

  predicate Starts(es: seq<Event>, i: nat, j: string)
    requires i < |es|
  {
    IsFor(es, i, j) && EventToJob(es[i]).status == Processing
  }

  ghost predicate IsLast(es: seq<Event>, i: nat, j: string) {
    i < |es| && IsFor(es, i, j) && forall k :: i < k < |es| ==> !IsFor(es, k, j)
  }

  /** The job's last start, or its first event when it has no start. */
  ghost predicate IsReceipt(es: seq<Event>, i: nat, j: string) {
    && i < |es|
    && if Starts(es, i, j) then forall k :: i < k < |es| ==> !Starts(es, k, j)
       else IsFor(es, i, j) && (forall k :: 0 <= k < i ==> !IsFor(es, k, j)) && (forall k :: 0 <= k < |es| ==> !Starts(es, k, j))
  }

  /** What one event does to one row. */
  lemma OneRow(s: Store, e: Event, j: string)
    ensures var job, rows := EventToJob(e), ApplyOne(s, e).rows;
      && (job.jobId != j ==> (j in rows <==> j in s.rows) && (j in s.rows ==> rows[j] == s.rows[j]))
      && (job.jobId == j ==>
            && j in rows && rows[j].status == job.status && rows[j].duration == job.duration && rows[j].details == job.details
            && (!job.status.Other? ==> rows[j].finishedAt == job.finishedAt && (job.finishedAt.Some? <==> IsTerminal(job.status)))
            && rows[j].receivedAt == if job.status == Processing || j !in s.rows then job.receivedAt else s.rows[j].receivedAt)
  {
  }

  /** Some event is for the job. */
  predicate Seen(es: seq<Event>, j: string) {
    es != [] && (IsFor(es, |es| - 1, j) || Seen(es[..|es| - 1], j))
  }

  lemma {:induction false} NotSeen(es: seq<Event>, j: string)
    requires forall k :: 0 <= k < |es| ==> !IsFor(es, k, j)
    ensures !Seen(es, j)
    decreases |es|
  {
    hide EventToJob;
    if es != [] {
      var init := es[..|es| - 1];
      forall k | 0 <= k < |init| ensures !IsFor(init, k, j) {
        SameEvent(es, k, j);
      }
      NotSeen(init, j);
    }
  }

  lemma SameEvent(es: seq<Event>, k: nat, j: string)
    requires k < |es| - 1
    ensures IsFor(es[..|es| - 1], k, j) == IsFor(es, k, j) && Starts(es[..|es| - 1], k, j) == Starts(es, k, j)
  {
    hide EventToJob;
  }

  lemma {:induction false} RowsAreForEvents(es: seq<Event>, j: string)
    ensures j in ApplyAll(EMPTY, es).rows <==> Seen(es, j)
    decreases |es|
  {
    if es != [] {
      var init := es[..|es| - 1];
      RowsAreForEvents(init, j);
      OneRow(ApplyAll(EMPTY, init), es[|es| - 1], j);
      hide ApplyOne, EventToJob;
    }
  }

  /** A row's status, figures and finish are its last event's. */
  lemma {:induction false} RowTellsItsLastEvent(es: seq<Event>, i: nat, j: string)
    requires IsLast(es, i, j)
    ensures var rows, job := ApplyAll(EMPTY, es).rows, EventToJob(es[i]);
      && j in rows && rows[j].status == job.status && rows[j].duration == job.duration && rows[j].details == job.details
      && (!job.status.Other? ==> rows[j].finishedAt == job.finishedAt && (job.finishedAt.Some? <==> IsTerminal(job.status)))
    decreases |es|
  {
    var init := es[..|es| - 1];
    OneRow(ApplyAll(EMPTY, init), es[|es| - 1], j);
    LastBefore(es, i, j);
    assert IsFor(es, |es| - 1, j) == (EventToJob(es[|es| - 1]).jobId == j);
    hide ApplyOne, EventToJob, IsLast, IsFor;
    if i < |init| {
      assert init[i] == es[i];
      RowTellsItsLastEvent(init, i, j);
    }
  }

  lemma {:induction false} LastBefore(es: seq<Event>, i: nat, j: string)
    requires IsLast(es, i, j)
    ensures i < |es| && IsFor(es, i, j)
    ensures i < |es| - 1 ==> IsLast(es[..|es| - 1], i, j) && !IsFor(es, |es| - 1, j)
  {
    hide IsFor;
    if i < |es| - 1 {
      var init := es[..|es| - 1];
      SameEvent(es, i, j);
      forall k | i < k < |init| ensures !IsFor(init, k, j) {
        SameEvent(es, k, j);
      }
    }
  }

  lemma {:induction false} ReceiptBefore(es: seq<Event>, i: nat, j: string)
    requires IsReceipt(es, i, j)
    ensures i < |es| - 1 ==> IsReceipt(es[..|es| - 1], i, j) && !Starts(es, |es| - 1, j)
    ensures i == |es| - 1 && !Starts(es, i, j) ==> !Seen(es[..i], j)
  {
    hide IsFor, Starts;
    var init := es[..|es| - 1];
    forall k | 0 <= k < |init|
      ensures IsFor(init, k, j) == IsFor(es, k, j) && Starts(init, k, j) == Starts(es, k, j)
    {
      SameEvent(es, k, j);
    }
    if i == |es| - 1 && !Starts(es, i, j) {
      NotSeen(init, j);
    }
  }

  /** A row's receipt is its last start's, or its first event's. */
  lemma {:induction false} RowTellsItsReceipt(es: seq<Event>, i: nat, j: string)
    requires IsReceipt(es, i, j)
    ensures var rows := ApplyAll(EMPTY, es).rows;
      j in rows && rows[j].receivedAt == EventToJob(es[i]).receivedAt
    decreases |es|
  {
    var init := es[..|es| - 1];
    OneRow(ApplyAll(EMPTY, init), es[|es| - 1], j);
    RowsAreForEvents(init, j);
    ReceiptBefore(es, i, j);
    assert i < |es| && IsFor(es, i, j);
    hide ApplyOne, EventToJob, IsReceipt;
    if i < |init| {
      RowTellsItsReceipt(init, i, j);
      assert init[i] == es[i];
    }
  }
}
