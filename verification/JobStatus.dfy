/** Which events of a job's history count in the worker's statistics: the replay latch, and what it amounts to. */
module JobStatus {
  import opened Options

  datatype Status = Processing | Ok | Error | Other(name: string)

  function Read(s: string): Status {
    if s == "processing" then Processing else if s == "ok" then Ok else if s == "error" then Error else Other(s)
  }

  predicate IsTerminal(s: Status) {
    s.Ok? || s.Error?
  }

  /** What one event adds to the counters, and the latch it leaves. */
  datatype Delta = Delta(ok: nat, err: nat, duration: real, finishedAt: Option<nat>, suppress: bool)

  /** `replay_stats_transition`. */
  function Transition(cur: Option<Status>, suppress: bool, incoming: Status, duration: real, finishedAt: Option<nat>): Delta {
    var priorTerminal := cur.Some? && IsTerminal(cur.value);
    if incoming == Processing then
      Delta(0, 0, 0.0, None, priorTerminal && cur.value == Ok)
    else if IsTerminal(incoming) then
      if suppress then Delta(0, 0, 0.0, None, false)
      else if !priorTerminal then
        if incoming == Ok then Delta(1, 0, duration, finishedAt, false) else Delta(0, 1, 0.0, finishedAt, false)
      else Delta(0, 0, 0.0, None, suppress)
    else Delta(0, 0, 0.0, None, suppress)
  }

  // ----- One job's history -----

  datatype Latch = Latch(status: Option<Status>, suppress: bool)

  /** The row's status and latch after a history of statuses. */
  function LatchAfter(h: seq<Status>): Latch {
    if h == [] then Latch(None, false)
    else
      var before, s := LatchAfter(h[..|h| - 1]), h[|h| - 1];
      Latch(Some(s), Transition(before.status, before.suppress, s, 0.0, None).suppress)
  }

  /** Does the transition count the `i`-th event? */
  predicate Counts(h: seq<Status>, i: nat)
    requires i < |h|
  {
    var before := LatchAfter(h[..i]);
    var d := Transition(before.status, before.suppress, h[i], 0.0, None);
    d.ok + d.err > 0
  }

  /** A `processing` right after an `ok`, with nothing but unknown statuses since: the next terminal event is a replay. */
  predicate Replaying(h: seq<Status>) {
    h != [] &&
    var last := h[|h| - 1];
    if last.Other? then Replaying(h[..|h| - 1]) else last == Processing && |h| > 1 && h[|h| - 2] == Ok
  }

  lemma {:induction false} LatchMeansReplaying(h: seq<Status>)
    ensures LatchAfter(h).suppress <==> Replaying(h)
    ensures LatchAfter(h).status == if h == [] then None else Some(h[|h| - 1])
    decreases |h|
  {
    if h != [] {
      var init := h[..|h| - 1];
      LatchMeansReplaying(init);
      assert |h| > 1 ==> init[|init| - 1] == h[|h| - 2];
    }
  }

  /**
    The closed form: an event counts exactly when it is terminal, the event before it is not, and the job is
    not being replayed.
   */
  lemma CountsIff(h: seq<Status>, i: nat)
    requires i < |h|
    ensures Counts(h, i) <==> IsTerminal(h[i]) && (i == 0 || !IsTerminal(h[i - 1])) && !Replaying(h[..i])
  {
    LatchMeansReplaying(h[..i]);
  }

  /** For the statuses the worker writes: first in the history, or after a `processing` that does not follow an `ok`. */
  lemma CountsIffKnown(h: seq<Status>, i: nat)
    requires i < |h| && forall k :: 0 <= k < |h| ==> !h[k].Other?
    ensures Counts(h, i) <==>
              IsTerminal(h[i]) && (i == 0 || (h[i - 1] == Processing && !(i >= 2 && h[i - 2] == Ok)))
  {
    CountsIff(h, i);
    if i > 0 {
      assert h[..i][i - 1] == h[i - 1];
      assert i >= 2 ==> h[..i][i - 2] == h[i - 2];
    }
  }

  /** How many events of the history count. */
  function Counted(h: seq<Status>): nat {
    if h == [] then 0
    else Counted(h[..|h| - 1]) + if Counts(h, |h| - 1) then 1 else 0
  }

  // ----- How often a job counts -----

  predicate SomeTerminal(h: seq<Status>) {
    exists j :: 0 <= j < |h| && IsTerminal(h[j])
  }

  lemma {:induction false} ReplayingNeedsAnEnd(h: seq<Status>)
    requires Replaying(h)
    ensures SomeTerminal(h)
    decreases |h|
  {
    var init := h[..|h| - 1];
    if h[|h| - 1].Other? {
      ReplayingNeedsAnEnd(init);
      var j :| 0 <= j < |init| && IsTerminal(init[j]);
      assert IsTerminal(h[j]);
    } else {
      assert IsTerminal(h[|h| - 2]);
    }
  }

  /** A job is counted exactly when it has ended. */
  lemma {:induction false} CountedIffEnded(h: seq<Status>)
    ensures Counted(h) > 0 <==> SomeTerminal(h)
    decreases |h|
  {
    if h != [] {
      var n := |h| - 1;
      CountedIffEnded(h[..n]);
      CountsIff(h, n);
      hide Counts, Replaying;
      if SomeTerminal(h[..n]) {
        var j :| 0 <= j < n && IsTerminal(h[..n][j]);
        assert IsTerminal(h[j]);
      } else {
        assert forall j :: 0 <= j < n ==> !IsTerminal(h[..n][j]);
        assert forall j :: 0 <= j < n ==> h[j] == h[..n][j];
        if Replaying(h[..n]) { ReplayingNeedsAnEnd(h[..n]); }
      }
    }
  }

  /** Event `i` ends an attempt that is no replay, and the job had ended before. */
  predicate Again(h: seq<Status>, i: nat) {
    && 0 < i < |h| && IsTerminal(h[i]) && !IsTerminal(h[i - 1])
    && !Replaying(h[..i]) && SomeTerminal(h[..i])
  }

  lemma {:induction false} AgainInPrefix(h: seq<Status>, n: nat, i: nat)
    requires i < n <= |h|
    ensures Again(h[..n], i) <==> Again(h, i)
  {
    hide Replaying, SomeTerminal;
    assert h[..n][..i] == h[..i];
  }

  /** When a job counts at most once: no event ends an attempt, other than a replay, of a job that had ended before. */
  lemma {:induction false} CountsOnceIff(h: seq<Status>)
    ensures Counted(h) <= 1 <==> forall i: nat :: !Again(h, i)
    decreases |h|
  {
    if h != [] {
      var n := |h| - 1;
      CountsOnceIff(h[..n]);
      CountedIffEnded(h[..n]);
      CountsIff(h, n);
      hide Counts, Replaying, SomeTerminal;
      if Counted(h[..n]) > 1 {
        var i: nat :| Again(h[..n], i);
        AgainInPrefix(h, n, i);
      } else {
        forall i: nat | i < n ensures !Again(h, i) {
          AgainInPrefix(h, n, i);
        }
        if n == 0 {
          assert Counted(h[..n]) == 0;
        } else {
          assert Counted(h) <= 1 <==> !Again(h, n);
        }
      }
    }
  }

  /** For the statuses the worker writes, read off the last three events. */
  lemma {:induction false} AgainIffKnown(h: seq<Status>, i: nat)
    requires i < |h| && forall k :: 0 <= k < |h| ==> !h[k].Other?
    ensures Again(h, i) <==>
              (IsTerminal(h[i]) && i > 0 && h[i - 1] == Processing && !(i >= 2 && h[i - 2] == Ok) && SomeTerminal(h[..i]))
  {
    hide SomeTerminal;
    if i > 0 {
      assert h[..i][i - 1] == h[i - 1];
      assert i >= 2 ==> h[..i][i - 2] == h[i - 2];
    }
  }

  // ----- Histories that count more than once -----

  lemma CountedSnoc(h: seq<Status>, s: Status)
    ensures Counted(h + [s]) == Counted(h) + if Counts(h + [s], |h|) then 1 else 0
  {
    assert (h + [s])[..|h|] == h;
  }

  lemma CountedStep(h: seq<Status>, s: Status)
    requires !s.Other? && forall k :: 0 <= k < |h| ==> !h[k].Other?
    ensures Counted(h + [s]) == Counted(h) + if NextCounts(h, s) then 1 else 0
  {
    CountedSnoc(h, s);
    CountsIffKnown(h + [s], |h|);
  }

  /** The statuses the worker writes, by the last two of a history. */
  predicate NextCounts(h: seq<Status>, s: Status) {
    IsTerminal(s) && (h == [] || (h[|h| - 1] == Processing && !(|h| >= 2 && h[|h| - 2] == Ok)))
  }

  /** The first steps of every history below: an `ok` that counts, and a replay of it that has begun. */
  lemma OkThenReplay()
    ensures Counted([Ok, Processing]) == 1
  {
    CountedStep([], Ok);
    CountedStep([Ok], Processing);
    assert [] + [Ok] == [Ok] && [Ok] + [Processing] == [Ok, Processing];
  }

  lemma CountsTwiceAgain(h: seq<Status>, i: nat)
    requires 2 <= i < |h| && h[0] == Ok && IsTerminal(h[i]) && h[i - 1] == Processing && h[i - 2] != Ok
    ensures Again(h, i)
  {
    assert h[..i][i - 1] == h[i - 1] && h[..i][i - 2] == h[i - 2] && IsTerminal(h[..i][0]);
  }

  /** A job whose `processing` event arrives twice after an `ok` is counted again. */
  lemma RepeatedStartCountsTwice()
    ensures Counted([Ok, Processing, Processing, Ok]) == 2 && Again([Ok, Processing, Processing, Ok], 3)
  {
    CountsTwiceAgain([Ok, Processing, Processing, Ok], 3);
    OkThenReplay();
    hide Counted, Counts;
    CountedStep([Ok, Processing], Processing);
    assert [Ok, Processing] + [Processing] == [Ok, Processing, Processing];
    CountedStep([Ok, Processing, Processing], Ok);
    assert [Ok, Processing, Processing] + [Ok] == [Ok, Processing, Processing, Ok];
  }

  /** So is one whose replay failed before it succeeded again. */
  lemma FailedReplayCountsTwice()
    ensures Counted([Ok, Processing, Error, Processing, Ok]) == 2 && Again([Ok, Processing, Error, Processing, Ok], 4)
  {
    CountsTwiceAgain([Ok, Processing, Error, Processing, Ok], 4);
    OkThenReplay();
    hide Counted, Counts;
    CountedStep([Ok, Processing], Error);
    assert [Ok, Processing] + [Error] == [Ok, Processing, Error];
    CountedStep([Ok, Processing, Error], Processing);
    assert [Ok, Processing, Error] + [Processing] == [Ok, Processing, Error, Processing];
    CountedStep([Ok, Processing, Error, Processing], Ok);
    assert [Ok, Processing, Error, Processing] + [Ok] == [Ok, Processing, Error, Processing, Ok];
  }

  // ----- Attempts: a `processing` and an end each -----

  /** The history of a job delivered once per entry; `true` stands for `ok`. */
  function Attempts(ends: seq<bool>): seq<Status> {
    if ends == [] then []
    else Attempts(ends[..|ends| - 1]) + [Processing, if ends[|ends| - 1] then Ok else Error]
  }

  function Errors(ends: seq<bool>): nat {
    if ends == [] then 0 else Errors(ends[..|ends| - 1]) + if ends[|ends| - 1] then 0 else 1
  }

  lemma {:induction false} AttemptsShape(ends: seq<bool>)
    ensures |Attempts(ends)| == 2 * |ends|
    ensures forall k :: 0 <= k < |ends| ==>
              Attempts(ends)[2 * k] == Processing && Attempts(ends)[2 * k + 1] == if ends[k] then Ok else Error
    decreases |ends|
  {
    if ends != [] {
      AttemptsShape(ends[..|ends| - 1]);
    }
  }

  /**
    What the latch is for: over whole attempts, a job counts once, and once more for each failed attempt that
    was followed by another.
   */
  lemma {:induction false} RetriesCount(ends: seq<bool>)
    requires ends != []
    ensures Counted(Attempts(ends)) == 1 + Errors(ends[..|ends| - 1])
    decreases |ends|
  {
    var init := ends[..|ends| - 1];
    AttemptsAreKnown(init);
    if init != [] {
      RetriesCount(init);
      LastAttempt(init);
    }
    AttemptCounts(Attempts(init), if ends[|ends| - 1] then Ok else Error);
  }

  /** One more attempt counts unless the one before it ended well. */
  lemma {:induction false} AttemptCounts(before: seq<Status>, end: Status)
    requires IsTerminal(end) && (before != [] ==> IsTerminal(before[|before| - 1]))
    requires forall k :: 0 <= k < |before| ==> !before[k].Other?
    ensures Counted(before + [Processing, end]) == Counted(before) + if before == [] || before[|before| - 1] == Error then 1 else 0
  {
    hide Counted;
    CountedStep(before, Processing);
    CountedStep(before + [Processing], end);
    assert before + [Processing] + [end] == before + [Processing, end];
  }

  lemma LastAttempt(ends: seq<bool>)
    requires ends != []
    ensures var h := Attempts(ends);
      |h| >= 2 && h[|h| - 1] == if ends[|ends| - 1] then Ok else Error
  {
    AttemptsShape(ends);
  }

  lemma AttemptsAreKnown(ends: seq<bool>)
    ensures forall k :: 0 <= k < |Attempts(ends)| ==> !Attempts(ends)[k].Other?
  {
    AttemptsShape(ends);
    forall k | 0 <= k < |Attempts(ends)| ensures !Attempts(ends)[k].Other? {
      var m := k / 2;
      assert k == 2 * m || k == 2 * m + 1;
    }
  }

  /** So, over whole attempts, a job counts at most once exactly when no attempt but the last failed. */
  lemma {:induction false} AttemptsCountOnceIff(ends: seq<bool>)
    ensures Counted(Attempts(ends)) <= 1 <==> forall k :: 0 <= k < |ends| - 1 ==> ends[k]
  {
    hide Counted, Attempts, Again;
    var h := Attempts(ends);
    AttemptsShape(ends);
    AttemptsAreKnown(ends);
    CountsOnceIff(h);
    forall k | 0 <= k < |ends| - 1 ensures Again(h, 2 * k + 3) <==> !ends[k] {
      AgainIffKnown(h, 2 * k + 3);
      assert h[2 * (k + 1)] == Processing && IsTerminal(h[2 * (k + 1) + 1]) && h[2 * k + 1] == if ends[k] then Ok else Error;
      assert IsTerminal(h[..2 * k + 3][2 * k + 1]);
    }
    forall i: nat | Again(h, i) ensures exists k :: 0 <= k < |ends| - 1 && !ends[k] {
      var k := AgainIsAnEnd(h, ends, i);
      assert Again(h, 2 * k + 3) <==> !ends[k];
    }
  }

  lemma {:induction false} AgainIsAnEnd(h: seq<Status>, ends: seq<bool>, i: nat) returns (k: nat)
    requires h == Attempts(ends) && Again(h, i)
    ensures k < |ends| - 1 && i == 2 * k + 3
  {
    hide Replaying, Attempts;
    AttemptsShape(ends);
    assert h[2 * (i / 2)] == Processing;
    assert i % 2 == 1;
    var j :| 0 <= j < |h[..i]| && IsTerminal(h[..i][j]);
    assert IsTerminal(h[j]) && h[2 * (j / 2)] == Processing;
    assert j % 2 == 1;
    k := i / 2 - 1;
  }
}
