/** What the store reports, in terms of the events as they came: by their texts, and with the latest finish. */
module StoreTotals {
  import opened Options
  import opened Text
  import opened JobStatus
  import opened JobStore

  /** The text the store reads in a field. */
  function TextOf(v: Option<string>): string {
    if v.Some? && exists i :: 0 <= i < |v.value| && !IsSpace(v.value[i]) then Strip(v.value) else "unknown"
  }

  lemma TextIsRead(v: Option<string>)
    ensures NonEmpty(v, "unknown") == TextOf(v)
  {
    hide Strip, IsSpace;
  }

  lemma ReadTells(s: string)
    ensures Read(s) == Processing <==> s == "processing"
    ensures Read(s) == Ok <==> s == "ok"
    ensures Read(s) == Error <==> s == "error"
    ensures !IsTerminal(Read(s)) && s != "processing" ==> Read(s) == Other(s)
  {
  }

  function FinishOf(e: Event): Time {
    if e.finishedAt.Some? then e.finishedAt.value else e.writtenAt
  }

  /** How an event's fields are read, defaults included. */
  lemma EventIsRead(e: Event)
    ensures var job, status := EventToJob(e), TextOf(e.status);
      && job.jobId == TextOf(e.jobId) && job.duration == e.duration && job.details == e.details
      && (job.status == Processing <==> status == "processing")
      && (job.status == Ok <==> status == "ok") && (job.status == Error <==> status == "error")
      && job.receivedAt == (if e.receivedAt.Some? then e.receivedAt.value
                            else if status == "processing" then e.writtenAt else FinishOf(e))
      && (status == "processing" ==> job.finishedAt == None)
      && (status == "ok" || status == "error" ==> job.finishedAt == Some(FinishOf(e)))
  {
    hide Strip, IsSpace, Read, TextOf, NonEmpty;
    TextIsRead(e.jobId);
    TextIsRead(e.status);
    ReadTells(TextOf(e.status));
  }

  // ----- The counters -----

  /** How many of the events that count have this status text. */
  function CountedAs(es: seq<Event>, text: string): nat {
    if es == [] then 0
    else
      CountedAs(es[..|es| - 1], text)
      + if EventCounts(es, |es| - 1) && TextOf(es[|es| - 1].status) == text then 1 else 0
  }

  function OkSeconds(es: seq<Event>): real {
    if es == [] then 0.0
    else
      OkSeconds(es[..|es| - 1])
      + if EventCounts(es, |es| - 1) && TextOf(es[|es| - 1].status) == "ok" then es[|es| - 1].duration else 0.0
  }

  lemma CountedIsTerminal(es: seq<Event>, i: nat)
    requires i < |es| && EventCounts(es, i)
    ensures IsTerminal(EventToJob(es[i]).status)
    ensures TextOf(es[i].status) == "ok" || TextOf(es[i].status) == "error"
  {
    hide TextOf, EventToJob, History, Replaying;
    var job := EventToJob(es[i]);
    var h := History(es[..i], job.jobId);
    EventIsRead(es[i]);
    CountsIff(h + [job.status], |h|);
  }

  /** The totals count the `ok` and the `error` events that count, and sum the durations of the former. */
  lemma {:induction false} TotalsCountTexts(es: seq<Event>)
    ensures Sums(es).processed == CountedAs(es, "ok") && Sums(es).failed == CountedAs(es, "error")
    ensures Sums(es).duration == OkSeconds(es)
    decreases |es|
  {
    hide TextOf, EventToJob, EventCounts;
    if es != [] {
      TotalsCountTexts(es[..|es| - 1]);
      EventIsRead(es[|es| - 1]);
      if EventCounts(es, |es| - 1) {
        CountedIsTerminal(es, |es| - 1);
      }
    }
  }

  // ----- The latest finish -----

  predicate Latest(es: seq<Event>, t: Option<Time>) {
    match t
    case None => forall i :: 0 <= i < |es| ==> !EventCounts(es, i)
    case Some(v) =>
      && (exists i :: 0 <= i < |es| && EventCounts(es, i) && FinishOf(es[i]) == v)
      && forall i :: 0 <= i < |es| && EventCounts(es, i) ==> FinishOf(es[i]) <= v
  }

  lemma CountsInPrefix(es: seq<Event>, n: nat, i: nat)
    requires i < n <= |es|
    ensures EventCounts(es[..n], i) == EventCounts(es, i) && es[..n][i] == es[i]
  {
    hide EventToJob, History, Counts;
    assert es[..n][..i] == es[..i];
  }

  /** One more event, if it counts, may be later than the latest so far. */
  lemma LatestStep(es: seq<Event>, t: Option<Time>)
    requires es != [] && Latest(es[..|es| - 1], t)
    ensures var e := es[|es| - 1];
      Latest(es, if !EventCounts(es, |es| - 1) then t
                 else if t.Some? && t.value >= FinishOf(e) then t else Some(FinishOf(e)))
  {
    hide EventCounts, FinishOf;
    var n := |es| - 1;
    forall i | 0 <= i < n ensures EventCounts(es[..n], i) == EventCounts(es, i) && es[..n][i] == es[i] {
      CountsInPrefix(es, n, i);
    }
    if t.Some? {
      var i :| 0 <= i < n && EventCounts(es[..n], i) && FinishOf(es[..n][i]) == t.value;
      assert EventCounts(es, i) && FinishOf(es[i]) == t.value;
    }
  }

  lemma LaterIsMax(a: Option<Time>, v: Time)
    ensures Later(a, Some(v)) == if a.Some? && a.value >= v then a else Some(v)
  {
  }

  /** The last job's time is the latest finish among the events that count, and is empty exactly when none does. */
  lemma {:induction false} LastAtIsLatest(es: seq<Event>)
    ensures Latest(es, Sums(es).lastAt)
    decreases |es|
  {
    hide Latest, EventCounts, EventToJob, Later, TextOf;
    if es == [] {
      NothingIsLatest();
    } else {
      var init, e := es[..|es| - 1], es[|es| - 1];
      LastAtIsLatest(init);
      LatestStep(es, Sums(init).lastAt);
      EventIsRead(e);
      if EventCounts(es, |es| - 1) {
        CountedIsTerminal(es, |es| - 1);
        LaterIsMax(Sums(init).lastAt, FinishOf(e));
      }
    }
  }

  lemma NothingIsLatest()
    ensures Latest([], None)
  {
  }

  /** What the store reports after any events, in any batches. */
  lemma {:induction false} StoreTellsItsEvents(es: seq<Event>)
    ensures var t := ApplyAll(EMPTY, es).totals;
      t.processed == CountedAs(es, "ok") && t.failed == CountedAs(es, "error") && t.duration == OkSeconds(es) && Latest(es, t.lastAt)
  {
    hide ApplyAll, Sums, CountedAs, OkSeconds, Latest, History, LatchAfter, LatchOf;
    StoreIsReadOffHistories(es);
    TotalsCountTexts(es);
    LastAtIsLatest(es);
  }

  // ----- The rows -----

  /** A row shows its job's last event: status, figures, and the finish if the job has one. */
  lemma {:induction false} RowShowsItsLastEvent(es: seq<Event>, i: nat, j: string)
    requires IsLast(es, i, j)
    ensures var rows, status := ApplyAll(EMPTY, es).rows, TextOf(es[i].status);
      && TextOf(es[i].jobId) == j && j in rows
      && (rows[j].status == Processing <==> status == "processing")
      && (rows[j].status == Ok <==> status == "ok") && (rows[j].status == Error <==> status == "error")
      && rows[j].duration == es[i].duration && rows[j].details == es[i].details
      && (status == "processing" ==> rows[j].finishedAt == None)
      && (status == "ok" || status == "error" ==> rows[j].finishedAt == Some(FinishOf(es[i])))
  {
    hide ApplyAll, TextOf, EventToJob;
    RowTellsItsLastEvent(es, i, j);
    EventIsRead(es[i]);
    LastBefore(es, i, j);
  }

  /** And was received when its last start was, or its first event when it never started. */
  lemma {:induction false} RowShowsItsReceipt(es: seq<Event>, i: nat, j: string)
    requires IsReceipt(es, i, j)
    ensures var rows := ApplyAll(EMPTY, es).rows;
      && j in rows
      && rows[j].receivedAt == (if es[i].receivedAt.Some? then es[i].receivedAt.value
                                else if TextOf(es[i].status) == "processing" then es[i].writtenAt else FinishOf(es[i]))
  {
    hide ApplyAll, TextOf, EventToJob;
    RowTellsItsReceipt(es, i, j);
    EventIsRead(es[i]);
  }
}
