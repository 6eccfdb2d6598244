/** The in-memory twin of the job store, used when no store is attached or it refuses an event. */
module WorkerMemory {
  import opened Options
  import opened Text
  import opened JobStatus
  import opened JobStore

  /** The keys of a job's dictionary that the statistics read; the status is kept as it came. */
  datatype MemRow = MemRow(status: string, suppress: bool, finishedAt: Option<Time>)

  datatype Memory = Memory(jobs: map<string, MemRow>, totals: Totals)

  const NOTHING := Memory(map[], Totals(0, 0, 0.0, None))

  /** The defaults `record_job` adds before the event goes either way. */
  function Stamp(e: Event, now: Time): Event {
    if e.status == Some("processing") then e.(receivedAt := Some(Or(e.receivedAt, now)))
    else e.(finishedAt := Some(Or(e.finishedAt, now)))
  }

  /** The memory half of `record_job`. */
  function RecordOne(m: Memory, e: Event): Memory {
    var j := if e.jobId.Some? then e.jobId.value else "unknown";
    var status := if e.status.Some? then e.status.value else "";
    var known := j in m.jobs;
    var d := Transition(if known then Some(Read(m.jobs[j].status)) else None, known && m.jobs[j].suppress,
                        Read(Strip(status)), e.duration, e.finishedAt);
    var kept := if known then m.jobs[j] else MemRow("", false, None);
    var row := MemRow(if e.status.Some? then status else kept.status, d.suppress,
                      if status == "processing" then None else if e.finishedAt.Some? then e.finishedAt else kept.finishedAt);
    Memory(m.jobs[j := row], AddDelta(m.totals, d))
  }

  function RecordAll(m: Memory, es: seq<Event>): Memory {
    if es == [] then m else RecordOne(RecordAll(m, es[..|es| - 1]), es[|es| - 1])
  }

  lemma AddsUp(t: Totals, d: Delta)
    ensures AddDelta(t, d) == Totals(t.processed + d.ok, t.failed + d.err, t.duration + d.duration,
                                     if d.finishedAt.Some? then Later(t.lastAt, d.finishedAt) else t.lastAt)
  {
  }

  class WorkerStats {
    var processed: nat
    var failed: nat
    var totalDuration: real
    var lastFinished: Option<Time>
    var jobs: map<string, MemRow>

    constructor ()
      ensures Contents() == NOTHING
    {
      processed, failed, totalDuration, lastFinished, jobs := 0, 0, 0.0, None, map[];
    }

    function Contents(): Memory
      reads this
    {
      Memory(jobs, Totals(processed, failed, totalDuration, lastFinished))
    }

    /** `record_job` without a store. */
    method RecordJob(result: Event, now: Time)
      modifies this
      ensures Contents() == RecordOne(old(Contents()), Stamp(result, now))
    {
      hide Transition, Strip, Read, Stamp, Later, AddDelta;
      ghost var before := Contents();
      var event := Stamp(result, now);
      var jobId := if event.jobId.Some? then event.jobId.value else "unknown";
      var curStatus: Option<Status>, curSuppress := None, false;
      if jobId in jobs {
        curStatus, curSuppress := Some(Read(jobs[jobId].status)), jobs[jobId].suppress;
      }
      var status := if event.status.Some? then event.status.value else "";
      var d := Transition(curStatus, curSuppress, Read(Strip(status)), event.duration, event.finishedAt);
      processed := processed + d.ok;
      failed := failed + d.err;
      totalDuration := totalDuration + d.duration;
      if d.finishedAt.Some? {
        lastFinished := Later(lastFinished, d.finishedAt);
      }
      AddsUp(before.totals, d);
      assert Contents().totals == AddDelta(before.totals, d);
      UpsertMemoryJob(jobId, event, status, d.suppress);
    }

    /** `_upsert_memory_job`: the event's keys over the prior ones; a start drops the finish. */
    method UpsertMemoryJob(jobId: string, event: Event, status: string, suppress: bool)
      requires status == if event.status.Some? then event.status.value else ""
      modifies this`jobs
      ensures var prior := if jobId in old(jobs) then old(jobs)[jobId] else MemRow("", false, None);
        jobs == old(jobs)[jobId := MemRow(if event.status.Some? then status else prior.status, suppress,
                                          if status == "processing" then None
                                          else if event.finishedAt.Some? then event.finishedAt else prior.finishedAt)]
    {
      var row := if jobId in jobs then jobs[jobId] else MemRow("", false, None);
      if event.status.Some? {
        row := row.(status := status);
      }
      if event.finishedAt.Some? {
        row := row.(finishedAt := event.finishedAt);
      }
      if status == "processing" {
        row := row.(finishedAt := None);
      }
      jobs := jobs[jobId := row.(suppress := suppress)];
    }
  }

  // ----- The twin does what the store does -----

  predicate PlainText(s: string) {
    s != "" && !IsSpace(s[0]) && !IsSpace(s[|s| - 1])
  }

  /** Identifier and status are there and carry no surrounding whitespace, as in every event the worker builds. */
  predicate WellFormed(e: Event) {
    e.jobId.Some? && PlainText(e.jobId.value) && e.status.Some? && PlainText(e.status.value)
  }

  /** Same counters, same jobs, same statuses and latches; and the same finish unless the status is an unknown one. */
  ghost predicate Agree(m: Memory, s: Store) {
    && m.totals == s.totals
    && m.jobs.Keys == s.rows.Keys
    && forall j :: j in m.jobs ==> AgreeOn(m.jobs[j], s.rows[j])
  }

  predicate AgreeOn(r: MemRow, row: Row) {
    && Read(r.status) == row.status && r.suppress == row.suppress
    && (!row.status.Other? ==> r.finishedAt == row.finishedAt)
  }

  function MemoryKey(e: Event): string {
    if e.jobId.Some? then e.jobId.value else "unknown"
  }

  /**
    What an event must look like after the history `h` of its job: no surrounding whitespace, in the identifier if
    there is one and in the status; without a status, the job's last one must be the store's `unknown`.
   */
  predicate PlainEvent(h: seq<Status>, e: Event) {
    && (e.jobId.Some? ==> PlainText(e.jobId.value))
    && (if e.status.Some? then PlainText(e.status.value) else h != [] && h[|h| - 1] == Other("unknown"))
  }

  predicate Timed(e: Event) {
    e.status.Some? && IsTerminal(Read(e.status.value)) ==> e.finishedAt.Some?
  }

  lemma PlainIff(s: string)
    ensures PlainText(s) <==> !AllSpace(s) && Strip(s) == s
  {
    hide IsSpace, Leading, Trailing, Strip;
    if PlainText(s) {
      StripsTo(s, 0, |s|);
      assert s[0..|s|] == s;
    } else if !AllSpace(s) {
      StripIs(s);
    }
  }

  lemma NonEmptyIsPlain(v: Option<string>)
    ensures PlainText(NonEmpty(v, "unknown"))
    ensures v.Some? ==> (PlainText(v.value) <==> NonEmpty(v, "unknown") == v.value)
  {
    hide Leading, Trailing, Strip;
    assert !IsSpace('u') && !IsSpace('n');
    hide IsSpace;
    if v.Some? {
      PlainIff(v.value);
      if !AllSpace(v.value) {
        StripIs(v.value);
      }
    }
  }

  lemma ReadIsInjective(s: string, t: string)
    ensures Read(s) == Read(t) ==> s == t
  {
  }

  predicate KeysPlain(s: Store) {
    forall j :: j in s.rows ==> PlainText(j)
  }

  lemma {:induction false} StoreKeysArePlain(es: seq<Event>)
    ensures KeysPlain(ApplyAll(EMPTY, es))
    decreases |es|
  {
    hide PlainText, NonEmpty, Transition, Upsert;
    if es != [] {
      StoreKeysArePlain(es[..|es| - 1]);
      NonEmptyIsPlain(es[|es| - 1].jobId);
    }
  }

  /** The row each twin writes, and under which key. */
  lemma StatusesAfter(m: Memory, s: Store, e: Event)
    ensures var j, k := MemoryKey(e), NonEmpty(e.jobId, "unknown");
      var m', s' := RecordOne(m, e), ApplyOne(s, e);
      && m'.jobs.Keys == m.jobs.Keys + {j} && s'.rows.Keys == s.rows.Keys + {k}
      && m'.jobs[j].status == (if e.status.Some? then e.status.value else if j in m.jobs then m.jobs[j].status else "")
      && s'.rows[k].status == Read(NonEmpty(e.status, "unknown"))
  {
    hide Strip, AllSpace, Read, Transition, NonEmpty;
  }

  /** With the same key and plain texts, both make the same transition. */
  lemma {:induction false} PlainEventAgrees(m: Memory, s: Store, e: Event)
    requires Agree(m, s) && Timed(e) && MemoryKey(e) == NonEmpty(e.jobId, "unknown")
    requires if e.status.Some? then NonEmpty(e.status, "unknown") == e.status.value == Strip(e.status.value)
             else MemoryKey(e) in m.jobs && m.jobs[MemoryKey(e)].status == "unknown"
    ensures Agree(RecordOne(m, e), ApplyOne(s, e))
  {
    hide NonEmpty, Strip;
    var job := EventToJob(e);
    assert job.jobId == MemoryKey(e);
    if e.status.Some? {
      assert job.status == Read(e.status.value);
    } else {
      assert NonEmpty(e.status, "unknown") == "unknown" by { NoStatus(e.status); }
      assert Strip("") == "" by { StripNothing(); }
    }
  }

  lemma NoStatus(v: Option<string>)
    requires v.None?
    ensures NonEmpty(v, "unknown") == "unknown"
  {
  }

  lemma StripNothing()
    ensures Strip("") == ""
  {
  }

  /** One event keeps the twins in agreement exactly when it is plain for its job's history. */
  lemma {:induction false} StepAgreesIff(m: Memory, s: Store, h: seq<Status>, e: Event)
    requires Agree(m, s) && KeysPlain(s) && Timed(e)
    requires LatchAfter(h) == LatchOf(s.rows, NonEmpty(e.jobId, "unknown"))
    ensures Agree(RecordOne(m, e), ApplyOne(s, e)) <==> PlainEvent(h, e)
  {
    hide Read, Strip, AllSpace, PlainText, NonEmpty, RecordOne, ApplyOne, LatchAfter;
    var j, k := MemoryKey(e), NonEmpty(e.jobId, "unknown");
    var m', s' := RecordOne(m, e), ApplyOne(s, e);
    StatusesAfter(m, s, e);
    NonEmptyIsPlain(e.jobId);
    NonEmptyIsPlain(e.status);
    LatchMeansReplaying(h);
    if e.jobId.None? { NoStatus(e.jobId); }
    if e.status.None? { NoStatus(e.status); }
    if j != k {
      assert j in m'.jobs && j !in s'.rows;
    } else {
      var before := if j in m.jobs then m.jobs[j].status else "";
      var after := if e.status.Some? then e.status.value else before;
      ReadIsInjective(after, NonEmpty(e.status, "unknown"));
      ReadUnknown(before);
      if after == NonEmpty(e.status, "unknown") {
        if e.status.Some? { PlainIff(e.status.value); }
        PlainEventAgrees(m, s, e);
      } else {
        assert !AgreeOn(m'.jobs[j], s'.rows[j]);
      }
    }
  }

  lemma ReadUnknown(s: string)
    ensures Read(s) == Other("unknown") <==> s == "unknown"
  {
  }

  /** The default times are no text, and a finished event has one. */
  lemma StampedIsTimed(e: Event, now: Time)
    ensures Timed(Stamp(e, now)) && Stamp(e, now).status == e.status && Stamp(e, now).jobId == e.jobId
    ensures var s := Stamp(e, now);
      && (e.receivedAt.Some? ==> s.receivedAt == e.receivedAt) && (e.finishedAt.Some? ==> s.finishedAt == e.finishedAt)
      && (if e.status == Some("processing") then s.finishedAt == e.finishedAt && (e.receivedAt.None? ==> s.receivedAt == Some(now))
          else s.receivedAt == e.receivedAt && (e.finishedAt.None? ==> s.finishedAt == Some(now)))
  {
  }

  datatype Recorded = Recorded(event: Event, now: Time)

  function Stamped(rs: seq<Recorded>): seq<Event> {
    if rs == [] then [] else Stamped(rs[..|rs| - 1]) + [Stamp(rs[|rs| - 1].event, rs[|rs| - 1].now)]
  }

  lemma {:induction false} StampedAt(rs: seq<Recorded>)
    ensures |Stamped(rs)| == |rs|
    ensures forall i :: 0 <= i < |rs| ==> Stamped(rs)[i] == Stamp(rs[i].event, rs[i].now)
    decreases |rs|
  {
    hide Stamp;
    if rs != [] {
      StampedAt(rs[..|rs| - 1]);
    }
  }

  /** Event `i` is plain after what its job went through before. */
  predicate PlainAt(es: seq<Event>, i: nat)
    requires i < |es|
  {
    PlainEvent(History(es[..i], NonEmpty(es[i].jobId, "unknown")), es[i])
  }

  /** The twins agree after the first `n` events, each fed from the start. */
  ghost predicate AgreeAfter(es: seq<Event>, n: nat)
    requires n <= |es|
  {
    Agree(RecordAll(NOTHING, es[..n]), ApplyAll(EMPTY, es[..n]))
  }

  lemma {:induction false} NextAgreesIff(es: seq<Event>, n: nat)
    requires n < |es| && Timed(es[n]) && AgreeAfter(es, n)
    ensures AgreeAfter(es, n + 1) <==> PlainAt(es, n)
  {
    hide Agree, Timed, PlainEvent, RecordOne, ApplyOne, History, LatchAfter;
    var before, e := es[..n], es[n];
    var k := NonEmpty(e.jobId, "unknown");
    assert es[..n + 1][..n] == before && es[..n + 1][n] == e;
    StoreKeysArePlain(before);
    StoreIsReadOffHistories(before);
    assert LatchAfter(History(before, k)) == LatchOf(ApplyAll(EMPTY, before).rows, k);
    StepAgreesIff(RecordAll(NOTHING, before), ApplyAll(EMPTY, before), History(before, k), e);
  }

  lemma {:induction false} AgreeUpTo(es: seq<Event>, n: nat)
    requires n <= |es| && (forall i :: 0 <= i < n ==> Timed(es[i]) && PlainAt(es, i))
    ensures AgreeAfter(es, n)
    decreases n
  {
    hide AgreeAfter, PlainAt, Timed;
    if n == 0 {
      NothingAgrees(es);
    } else {
      AgreeUpTo(es, n - 1);
      NextAgreesIff(es, n - 1);
    }
  }

  lemma NothingAgrees(es: seq<Event>)
    ensures AgreeAfter(es, 0)
  {
    assert es[..0] == [];
  }

  /** For any recorded events: the twins agree after every one of them exactly when every one of them is plain. */
  lemma {:induction false} MemoryAgreesIff(rs: seq<Recorded>)
    ensures |Stamped(rs)| == |rs|
    ensures (forall n :: 0 <= n <= |rs| ==> AgreeAfter(Stamped(rs), n)) <==> (forall i :: 0 <= i < |rs| ==> PlainAt(Stamped(rs), i))
  {
    hide AgreeAfter, PlainAt, Timed, Stamp, Stamped;
    var es := Stamped(rs);
    StampedAt(rs);
    forall i | 0 <= i < |rs| ensures Timed(es[i]) {
      StampedIsTimed(rs[i].event, rs[i].now);
    }
    if forall i :: 0 <= i < |rs| ==> PlainAt(es, i) {
      forall n | 0 <= n <= |rs| ensures AgreeAfter(es, n) {
        AgreeUpTo(es, n);
      }
    }
    if forall n :: 0 <= n <= |rs| ==> AgreeAfter(es, n) {
      forall i | 0 <= i < |rs| ensures PlainAt(es, i) {
        assert AgreeAfter(es, i) && AgreeAfter(es, i + 1);
        NextAgreesIff(es, i);
      }
    }
  }

  /** For well-formed events the memory and the store, each fed from the start, agree after every event. */
  lemma {:induction false} MemoryRefinesStore(rs: seq<Recorded>)
    requires forall i :: 0 <= i < |rs| ==> WellFormed(rs[i].event)
    ensures Agree(RecordAll(NOTHING, Stamped(rs)), ApplyAll(EMPTY, Stamped(rs)))
  {
    hide Agree, PlainText, Stamp, Stamped, History;
    var es := Stamped(rs);
    StampedAt(rs);
    forall i | 0 <= i < |rs| ensures PlainAt(es, i) {
      StampedIsTimed(rs[i].event, rs[i].now);
    }
    MemoryAgreesIff(rs);
    assert AgreeAfter(es, |rs|);
    assert es[..|rs|] == es;
  }

  /**
    For a job's first event with a known status the condition is on the status alone: the store strips it and the
    memory does not.
   */
  lemma {:induction false} PaddedStatusDisagrees(e: Event)
    requires e.jobId.Some? && !AllSpace(e.jobId.value) && Strip(e.jobId.value) == e.jobId.value
    requires e.status.Some? && !AllSpace(e.status.value) && !Read(Strip(e.status.value)).Other? && e.finishedAt.Some?
    ensures Agree(RecordOne(NOTHING, e), ApplyOne(EMPTY, e)) <==> Strip(e.status.value) == e.status.value
  {
    hide RecordOne, ApplyOne, Strip, PlainText;
    PlainIff(e.jobId.value);
    PlainIff(e.status.value);
    StepAgreesIff(NOTHING, EMPTY, [], e);
  }
}
