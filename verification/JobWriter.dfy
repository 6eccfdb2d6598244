/** The store's writer thread: it takes events off a queue, cuts them into batches and commits each or loses it. */
module JobWriter {
  import opened Options
  import opened JobStatus
  import opened JobStore

  datatype Item = Put(event: Event) | Stop

  /** The events among the items, in order. */
  function EventsOf(items: seq<Item>): seq<Event> {
    if items == [] then []
    else
      var init, last := EventsOf(items[..|items| - 1]), items[|items| - 1];
      if last.Put? then init + [last.event] else init
  }

  lemma TakeOne(items: seq<Item>, n: nat)
    requires n < |items|
    ensures EventsOf(items[..n + 1]) == EventsOf(items[..n]) + if items[n].Put? then [items[n].event] else []
    ensures NoStop(items[..n + 1]) <==> NoStop(items[..n]) && items[n].Put?
  {
    assert items[..n + 1][..n] == items[..n];
    var more := items[..n + 1];
    assert more[n] == items[n];
    assert forall i :: 0 <= i < n ==> more[i] == items[..n][i];
  }

  predicate NoStop(items: seq<Item>) {
    forall i :: 0 <= i < |items| ==> items[i].Put?
  }

  /** A batch, and whether its transaction committed. */
  datatype Batch = Batch(events: seq<Event>, committed: bool)

  function Concat(batches: seq<Batch>): seq<Event> {
    if batches == [] then [] else Concat(batches[..|batches| - 1]) + batches[|batches| - 1].events
  }

  function Commit(s: Store, b: Batch): Store {
    if b.committed then ApplyAll(s, b.events) else s
  }

  function CommitAll(s: Store, batches: seq<Batch>): Store {
    if batches == [] then s else Commit(CommitAll(s, batches[..|batches| - 1]), batches[|batches| - 1])
  }

  predicate AllCommitted(batches: seq<Batch>) {
    forall i :: 0 <= i < |batches| ==> batches[i].committed
  }

  /** When every batch commits, the cuts leave no trace. */
  lemma {:induction false} BatchingIsInvisible(s: Store, batches: seq<Batch>)
    requires AllCommitted(batches)
    ensures CommitAll(s, batches) == ApplyAll(s, Concat(batches))
    decreases |batches|
  {
    if batches != [] {
      var init, last := batches[..|batches| - 1], batches[|batches| - 1];
      BatchingIsInvisible(s, init);
      ApplyConcat(s, Concat(init), last.events);
    }
  }

  lemma BatchesSnoc(s: Store, batches: seq<Batch>, b: Batch)
    ensures Concat(batches + [b]) == Concat(batches) + b.events
    ensures CommitAll(s, batches + [b]) == Commit(CommitAll(s, batches), b)
  {
    assert (batches + [b])[..|batches|] == batches;
  }

  function MaxOf(times: seq<Time>): Option<Time> {
    if times == [] then None else Later(MaxOf(times[..|times| - 1]), Some(times[|times| - 1]))
  }

  lemma MaxSnoc(times: seq<Time>, t: Option<Time>)
    ensures MaxOf(Extend(times, t)) == Later(MaxOf(times), t)
  {
    if t.Some? {
      assert (times + [t.value])[..|times|] == times;
    }
  }

  lemma LaterAssociates(a: Option<Time>, b: Option<Time>, c: Option<Time>)
    ensures Later(Later(a, b), c) == Later(a, Later(b, c))
  {
  }

  /** A queue filled by other threads: `items` is all it will ever hold, `arrived` what is in it by now. */
  class EventQueue {
    const items: seq<Item>
    var arrived: nat
    var taken: nat

    constructor (items: seq<Item>)
      ensures this.items == items && arrived == 0 && taken == 0 && Valid()
    {
      this.items, arrived, taken := items, 0, 0;
    }

    predicate Valid()
      reads this
    {
      taken <= arrived <= |items|
    }

    /** `get_nowait`: `None` stands for `Empty`, and only an empty queue is. */
    method GetNowait() returns (item: Option<Item>)
      requires Valid()
      modifies this
      ensures Valid()
      ensures item.Some? ==> old(taken) < |items| && taken == old(taken) + 1 && item.value == items[old(taken)]
      ensures item.None? ==> taken == old(taken) == arrived
    {
      var now: nat :| arrived <= now <= |items|;
      arrived := now;
      if taken == arrived {
        return None;
      }
      taken := taken + 1;
      return Some(items[taken - 1]);
    }

    /** `get(timeout=...)`: it gives up `patience` times at most while something is still to come. */
    method Get(patience: nat) returns (item: Option<Item>)
      requires Valid() && taken < |items|
      modifies this
      ensures Valid()
      ensures item.Some? ==> taken == old(taken) + 1 && item.value == items[old(taken)]
      ensures item.None? ==> taken == old(taken) && patience > 0
    {
      item := GetNowait();
      if item.None? && patience == 0 {
        arrived, taken := taken + 1, taken + 1;
        item := Some(items[taken - 1]);
      }
    }
  }

  class SQLiteJobStore {
    const batchSize: nat
    const queue: EventQueue
    var store: Store
    /** The batches flushed so far. */
    ghost var batches: seq<Batch>
    /** The store before the first of them. */
    ghost const origin: Store

    constructor (size: int, queue: EventQueue, store: Store)
      requires queue.taken == 0 && queue.Valid()
      ensures this.queue == queue && this.store == store && batches == [] && origin == store
      ensures batchSize == if size < 1 then 1 else size
      ensures Valid() && Accounted([])
    {
      batchSize := if size < 1 then 1 else size;
      this.queue, this.store, batches, origin := queue, store, [], store;
    }

    ghost predicate Valid()
      reads this, queue
    {
      && batchSize > 0 && queue.Valid()
      && store == CommitAll(origin, batches)
      && (forall i :: 0 <= i < |batches| ==> 0 < |batches[i].events| <= batchSize)
    }

    /** Every event taken is in a batch or in the one being filled, once and in order. */
    ghost predicate Accounted(filling: seq<Event>)
      reads this, queue
    {
      && queue.taken <= |queue.items|
      && |filling| <= batchSize
      && EventsOf(queue.items[..queue.taken]) == Concat(batches) + filling
    }

    /**
      `_flush_batch`: rows event by event, totals by local sums and one update, all in one transaction;
      `commits` is whether it went through.
     */
    method FlushBatch(events: seq<Event>, commits: bool)
      requires Valid() && 0 < |events| <= batchSize && Accounted(events)
      modifies this`store, this`batches
      ensures Valid() && Accounted([])
      ensures batches == old(batches) + [Batch(events, commits)]
      ensures store == if commits then ApplyAll(old(store), events) else old(store)
    {
      var s := ApplyBatch(store, events);
      BatchesSnoc(origin, batches, Batch(events, commits));
      batches := batches + [Batch(events, commits)];
      if commits {
        store := s;
      }
    }

    /** One item off the queue keeps the account. */
    lemma TakenIsFilled(filling: seq<Event>, n: nat)
      requires Accounted(filling) || queue.taken == n + 1
      requires n < |queue.items| && EventsOf(queue.items[..n]) == Concat(batches) + filling
      ensures EventsOf(queue.items[..n + 1]) == Concat(batches) + (if queue.items[n].Put? then filling + [queue.items[n].event] else filling)
      ensures NoStop(queue.items[..n + 1]) <==> NoStop(queue.items[..n]) && queue.items[n].Put?
    {
      TakeOne(queue.items, n);
    }

    /** The batch started with `first` is filled from what is in the queue, up to the batch size or a stop signal. */
    method FillBatch(first: Event) returns (batch: seq<Event>, stop: bool)
      requires Valid() && Accounted([first]) && NoStop(queue.items[..queue.taken])
      modifies queue
      ensures Valid() && Accounted(batch) && 0 < |batch|
      ensures stop <==> !NoStop(queue.items[..queue.taken])
      ensures queue.taken >= old(queue.taken)
    {
      batch, stop := [first], false;
      while |batch| < batchSize
        invariant Valid() && Accounted(batch) && 0 < |batch| <= batchSize
        invariant NoStop(queue.items[..queue.taken]) && !stop
        invariant queue.taken >= old(queue.taken)
        decreases batchSize - |batch|
      {
        ghost var n := queue.taken;
        var item := queue.GetNowait();
        if item.None? {
          break;
        }
        TakenIsFilled(batch, n);
        if item.value.Stop? {
          stop := true;
          break;
        }
        batch := batch + [item.value.event];
      }
    }

    /** What is left after the stop signal, until the queue is empty. */
    method DrainTail()
      requires Valid() && Accounted([])
      modifies this`store, this`batches, queue
      ensures Valid() && Accounted([])
      ensures queue.taken == queue.arrived && queue.taken >= old(queue.taken)
    {
      var tail: seq<Event> := [];
      var more := true;
      while more
        invariant Valid() && Accounted(tail) && |tail| < batchSize
        invariant queue.taken >= old(queue.taken)
        invariant !more ==> queue.taken == queue.arrived
        decreases more, |queue.items| - queue.taken
      {
        ghost var n := queue.taken;
        var item := queue.GetNowait();
        if item.None? {
          more := false;
        } else {
          TakenIsFilled(tail, n);
          if item.value.Put? {
            tail := tail + [item.value.event];
            if |tail| >= batchSize {
              var commits: bool := *;
              FlushBatch(tail, commits);
              tail := [];
            }
          }
        }
      }
      if tail != [] {
        var commits: bool := *;
        FlushBatch(tail, commits);
      }
    }

    /**
      `_writer_loop`, for any cuts, stop signals and failing transactions: every event that was in the queue
      when the loop ended was flushed, once and in order.
     */
    method WriterLoop(patience: nat)
      requires Valid() && queue.taken == 0 && batches == [] && !NoStop(queue.items)
      modifies this`store, this`batches, queue
      ensures Valid() && queue.taken == queue.arrived && !NoStop(queue.items[..queue.taken])
      ensures Concat(batches) == EventsOf(queue.items[..queue.taken])
      ensures AllCommitted(batches) ==> store == ApplyAll(old(store), EventsOf(queue.items[..queue.taken]))
    {
      var stop, left := false, patience;
      assert queue.items[..0] == [];
      while !stop
        invariant Valid() && Accounted([])
        invariant stop <==> !NoStop(queue.items[..queue.taken])
        decreases !stop, |queue.items| - queue.taken, left
      {
        StopIsAhead(queue.items, queue.taken);
        ghost var n := queue.taken;
        var first := queue.Get(left);
        if first.None? {
          left := left - 1;
          continue;
        }
        TakenIsFilled([], n);
        if first.value.Stop? {
          stop := true;
          continue;
        }
        var batch;
        batch, stop := FillBatch(first.value.event);
        var commits: bool := *;
        FlushBatch(batch, commits);
      }
      ghost var seen := queue.items[..queue.taken];
      DrainTail();
      StopStays(queue.items, |seen|, queue.taken);
      if AllCommitted(batches) {
        BatchingIsInvisible(origin, batches);
      }
    }
  }

  lemma StopIsAhead(items: seq<Item>, n: nat)
    requires n <= |items| && NoStop(items[..n]) && !NoStop(items)
    ensures n < |items|
  {
    assert items[..|items|] == items;
  }

  lemma StopStays(items: seq<Item>, n: nat, m: nat)
    requires n <= m <= |items| && !NoStop(items[..n])
    ensures !NoStop(items[..m])
  {
    var i :| 0 <= i < n && !items[..n][i].Put?;
    assert !items[..m][i].Put?;
  }

  /** `UPDATE worker_stats` with the sums of a batch. */
  function AddSums(t: Totals, ok: nat, err: nat, duration: real, last: Option<Time>): Totals {
    Totals(t.processed + ok, t.failed + err, t.duration + duration, Later(t.lastAt, last))
  }

  function Extend(times: seq<Time>, t: Option<Time>): seq<Time> {
    if t.Some? then times + [t.value] else times
  }

  ghost predicate SoFar(before: Store, events: seq<Event>, rows: map<string, Row>, ok: nat, err: nat, duration: real, times: seq<Time>) {
    ApplyAll(before, events) == Store(rows, AddSums(before.totals, ok, err, duration, MaxOf(times)))
  }

  lemma OneMoreEvent(before: Store, events: seq<Event>, e: Event, rows: map<string, Row>, ok: nat, err: nat, duration: real, times: seq<Time>)
    requires SoFar(before, events, rows, ok, err, duration, times)
    ensures var job := EventToJob(e);
      var prior := Prior(rows, job.jobId);
      var d := DeltaFor(prior, job);
      SoFar(before, events + [e], rows[job.jobId := Upsert(prior, job, d.suppress)], ok + d.ok, err + d.err, duration + d.duration,
            Extend(times, d.finishedAt))
  {
    var job := EventToJob(e);
    var d := DeltaFor(Prior(rows, job.jobId), job);
    hide EventToJob, DeltaFor, Upsert, MaxOf;
    ApplySnoc(before, events, e);
    MaxSnoc(times, d.finishedAt);
    LaterAssociates(before.totals.lastAt, MaxOf(times), d.finishedAt);
  }

  lemma PrefixSnoc(events: seq<Event>, i: nat)
    requires i < |events|
    ensures events[..i + 1] == events[..i] + [events[i]]
  {
  }

  /** The body of the transaction. */
  method ApplyBatch(before: Store, events: seq<Event>) returns (after: Store)
    ensures after == ApplyAll(before, events)
  {
    var rows := before.rows;
    var okCount: nat, errorCount: nat, durationTotal := 0, 0, 0.0;
    var times: seq<Time> := [];
    var i := 0;
    while i < |events|
      invariant 0 <= i <= |events|
      invariant SoFar(before, events[..i], rows, okCount, errorCount, durationTotal, times)
    {
      hide SoFar, EventToJob, DeltaFor, Upsert, Prior, ApplyAll, AddSums, MaxOf, Extend;
      PrefixSnoc(events, i);
      OneMoreEvent(before, events[..i], events[i], rows, okCount, errorCount, durationTotal, times);
      var job := EventToJob(events[i]);
      var prior := Prior(rows, job.jobId);
      var d := DeltaFor(prior, job);
      okCount, errorCount, durationTotal := okCount + d.ok, errorCount + d.err, durationTotal + d.duration;
      times := Extend(times, d.finishedAt);
      rows := rows[job.jobId := Upsert(prior, job, d.suppress)];
      i := i + 1;
    }
    assert events[..i] == events;
    after := Store(rows, AddSums(before.totals, okCount, errorCount, durationTotal, MaxOf(times)));
  }
}
