/** The order in which the outbox reaches the jobs queue. */
module OutboxOrder {
  import opened Options
  import opened Projection
  import opened Handler

  /** An outbox row; its id is its position in the table, as rows are never deleted. */
  datatype OutboxRow = OutboxRow(jobId: JobId, body: Body, priority: nat, publishedAt: Option<Time>)

  /** The limit of `pending_outbox`. */
  const BATCH := 100

  /** Exactly the first `m` rows are marked as published. */
  predicate MarkedPrefix(outbox: seq<OutboxRow>, m: nat) {
    m <= |outbox| && forall i :: 0 <= i < |outbox| ==> (outbox[i].publishedAt.Some? <==> i < m)
  }

  /** The rows still stand for the same jobs. */
  predicate SameBodies(before: seq<OutboxRow>, after: seq<OutboxRow>) {
    |after| == |before| && forall i :: 0 <= i < |after| ==> after[i].jobId == before[i].jobId && after[i].body == before[i].body
  }

  /** `SELECT ... WHERE published_at IS NULL ORDER BY id LIMIT limit`, from row `start` on. */
  function Pending(outbox: seq<OutboxRow>, start: nat, limit: nat): (ids: seq<nat>)
    requires start <= |outbox|
    ensures forall i :: i in ids ==> start <= i < |outbox|
    decreases |outbox| - start
  {
    if start == |outbox| || limit == 0 then []
    else if outbox[start].publishedAt.None? then [start] + Pending(outbox, start + 1, limit - 1)
    else Pending(outbox, start + 1, limit)
  }

  function Range(lo: nat, hi: nat): seq<nat>
    requires lo <= hi
  {
    seq(hi - lo, k => lo + k)
  }

  lemma RangeSnoc(base: seq<nat>, lo: nat, hi: nat)
    requires lo <= hi
    ensures base + Range(lo, hi) + [hi] == base + Range(lo, hi + 1)
  {
  }

  lemma RangeAt(lo: nat, hi: nat, k: nat)
    requires lo + k < hi
    ensures |Range(lo, hi)| == hi - lo && Range(lo, hi)[k] == lo + k
  {
  }

  lemma RangeLength(lo: nat, hi: nat)
    requires lo <= hi
    ensures |Range(lo, hi)| == hi - lo
  {
  }

  lemma RangeNone(base: seq<nat>, lo: nat)
    ensures base + Range(lo, lo) == base
  {
  }

  /** While marks form a prefix, the query returns the rows right after it, in order and without gaps. */
  lemma {:induction false} PendingFollowsThePrefix(outbox: seq<OutboxRow>, m: nat, start: nat, limit: nat)
    requires MarkedPrefix(outbox, m) && start <= |outbox|
    ensures var from := if start < m then m else start;
      var to := if |outbox| - from <= limit then |outbox| else from + limit;
      Pending(outbox, start, limit) == Range(from, to)
    decreases |outbox| - start
  {
    if start < |outbox| && limit > 0 {
      if start < m {
        PendingFollowsThePrefix(outbox, m, start + 1, limit);
      } else {
        PendingFollowsThePrefix(outbox, m, start + 1, limit - 1);
      }
    }
  }

  /** Each enqueued position repeats the one before it or is the next one, starting from 0. */
  predicate Gapless(wire: seq<nat>) {
    && (wire != [] ==> wire[0] == 0)
    && forall k :: 0 <= k < |wire| - 1 ==> wire[k] <= wire[k + 1] <= wire[k] + 1
  }

  /** The enqueued rows run one ahead of the marked ones at most, and never behind. */
  predicate KeepsUp(wire: seq<nat>, m: nat) {
    && Gapless(wire)
    && (wire == [] ==> m == 0)
    && (wire != [] ==> wire[|wire| - 1] <= m <= wire[|wire| - 1] + 1)
  }

  lemma KeepsUpSnoc(wire: seq<nat>, m: nat)
    requires KeepsUp(wire, m)
    ensures KeepsUp(wire + [m], m) && KeepsUp(wire + [m], m + 1)
  {
  }

  /** Every marked row was enqueued, and before any later row was: first publishes happen in creation order. */
  lemma {:induction false} FirstPublishesInOrder(wire: seq<nat>, m: nat, i: nat, k: nat)
    requires KeepsUp(wire, m)
    ensures i < m ==> i in wire
    ensures k < |wire| && i < wire[k] ==> i in wire[..k]
    decreases |wire|
  {
    if wire != [] {
      var last := |wire| - 1;
      var init := wire[..last];
      var m' := if last == 0 then 0 else wire[last - 1] + 1;
      assert KeepsUp(init, m');
      FirstPublishesInOrder(init, m', i, k);
      assert forall x :: x in init ==> x in wire;
      assert k <= last ==> init[..k] == wire[..k];
    }
  }
}

/** The API's job table and outbox, and the bridge that publishes the one and projects results on the other. */
module ApiService {
  import opened Options
  import opened Projection
  import opened Handler
  import opened OutboxOrder

  class JobRepository {
    var jobs: map<JobId, Row>
    var outbox: seq<OutboxRow>

    constructor ()
      ensures jobs == map[] && outbox == [] && Valid()
    {
      jobs, outbox := map[], [];
    }

    /** Jobs and outbox rows are created together, one for one. */
    ghost predicate Valid()
      reads this
    {
      && (forall i :: 0 <= i < |outbox| ==> outbox[i].jobId in jobs)
      && (forall j :: j in jobs ==> exists i :: 0 <= i < |outbox| && outbox[i].jobId == j)
      && (forall i, k :: 0 <= i < k < |outbox| ==> outbox[i].jobId != outbox[k].jobId)
    }

    /** Both inserts, or neither: `stores` is whether the database works. */
    method CreateJob(jobId: JobId, profile: Option<string>, body: Body, priority: nat, now: Time, stores: bool) returns (ok: bool)
      requires Valid()
      modifies this
      ensures Valid()
      ensures ok <==> stores && jobId !in old(jobs)
      ensures ok ==> jobs == old(jobs)[jobId := NewRow(profile, now)]
      ensures ok ==> outbox == old(outbox) + [OutboxRow(jobId, body, priority, None)]
      ensures !ok ==> jobs == old(jobs) && outbox == old(outbox)
    {
      if !stores || jobId in jobs {
        return false;
      }
      ghost var before := outbox;
      jobs := jobs[jobId := NewRow(profile, now)];
      outbox := outbox + [OutboxRow(jobId, body, priority, None)];
      forall j | j in jobs ensures exists i :: 0 <= i < |outbox| && outbox[i].jobId == j {
        if j == jobId {
          assert outbox[|before|].jobId == j;
        } else {
          var i :| 0 <= i < |before| && before[i].jobId == j;
          assert outbox[i].jobId == j;
        }
      }
      return true;
    }

    function PendingOutbox(limit: nat): seq<nat>
      reads this
    {
      Pending(outbox, 0, limit)
    }

    method MarkPublished(id: nat, now: Time)
      requires Valid()
      modifies this`outbox
      ensures Valid()
      ensures outbox == if id < |old(outbox)| then old(outbox)[id := old(outbox)[id].(publishedAt := Some(now))] else old(outbox)
    {
      if id < |outbox| {
        ghost var before := outbox;
        outbox := outbox[id := outbox[id].(publishedAt := Some(now))];
        forall j | j in jobs ensures exists i :: 0 <= i < |outbox| && outbox[i].jobId == j {
          var i :| 0 <= i < |before| && before[i].jobId == j;
          assert outbox[i].jobId == j;
        }
      }
    }

    predicate IsPublished(jobId: JobId)
      reads this
    {
      exists i :: 0 <= i < |outbox| && outbox[i].jobId == jobId && outbox[i].publishedAt.Some?
    }

    method ApplyLifecycle(jobId: JobId, state: string, occurredAt: Option<Time>, now: Time)
      requires Valid()
      modifies this`jobs
      ensures Valid()
      ensures jobs == Apply(old(jobs), LifecycleMsg(jobId, state, occurredAt), now)
    {
      if state != "processing" {
        assert jobId in jobs ==> jobs == jobs[jobId := jobs[jobId]];
        return;
      }
      if jobId == "" {
        return;
      }
      if jobId in jobs {
        var row := jobs[jobId];
        if row.state == Queued {
          var occurred := if occurredAt.Some? then occurredAt else Some(now);
          row := row.(state := Processing, startedAt := if row.startedAt.Some? then row.startedAt else occurred);
        }
        jobs := jobs[jobId := row];
      }
    }

    method ApplyExtractionResult(r: Extraction, now: Time)
      requires Valid()
      modifies this`jobs
      ensures Valid()
      ensures jobs == Apply(old(jobs), ExtractionMsg(r), now)
    {
      if r.jobId == "" {
        return;
      }
      var state := if r.status == "ok" then Succeeded else Failed;
      if r.jobId in jobs {
        var row := jobs[r.jobId];
        row := row.(state := state, markdownPath := r.markdownPath, chunksPath := r.chunksPath,
                    tokensUsed := r.totalTokens, charsUsed := r.totalChars, chunkCount := r.chunkCount,
                    errorMessage := r.error, completedAt := Some(now));
        if row.startedAt.None? {
          row := row.(startedAt := Some(row.createdAt));
        }
        jobs := jobs[r.jobId := row];
      }
    }

    method ApplyLlmResult(r: LlmResult, now: Time)
      requires Valid()
      modifies this`jobs
      ensures Valid()
      ensures jobs == Apply(old(jobs), LlmMsg(r), now)
    {
      if r.extractJobId == "" {
        return;
      }
      if r.extractJobId in jobs {
        var row := jobs[r.extractJobId];
        var state := if r.status == "ok" then Succeeded else Failed;
        jobs := jobs[r.extractJobId := row.(llm := LlmRow(Some(state), r.provider, r.artifactPath,
                                                          r.chunkCount, r.vectorCount, r.error, Some(now)))];
      }
    }
  }

  /** From one outbox to the next, the rows from `lo` up to `hi` were marked and nothing else changed. */
  predicate OnlyMarked(before: seq<OutboxRow>, after: seq<OutboxRow>, lo: nat, hi: nat, now: Time) {
    && |after| == |before|
    && forall i :: 0 <= i < |after| ==> after[i] == if lo <= i < hi then before[i].(publishedAt := Some(now)) else before[i]
  }

  lemma SameRows(rows: seq<OutboxRow>, lo: nat, now: Time)
    ensures OnlyMarked(rows, rows, lo, lo, now)
  {
  }

  lemma OneMoreMarked(before: seq<OutboxRow>, after: seq<OutboxRow>, lo: nat, hi: nat, now: Time)
    requires OnlyMarked(before, after, lo, hi, now) && lo <= hi < |after|
    ensures OnlyMarked(before, after[hi := after[hi].(publishedAt := Some(now))], lo, hi + 1, now)
  {
  }

  datatype Verdict = Acknowledge | Discard

  class BrokerBridge {
    const repo: JobRepository
    /** The outbox positions enqueued so far, in order. They outlive the API process. */
    ghost var wire: seq<nat>
    /** How many rows are marked. */
    ghost var marked: nat

    constructor (repo: JobRepository)
      requires repo.Valid() && repo.outbox == []
      ensures this.repo == repo && wire == [] && marked == 0 && Valid()
    {
      this.repo, wire, marked := repo, [], 0;
    }

    ghost predicate Valid()
      reads this, repo
    {
      repo.Valid() && MarkedPrefix(repo.outbox, marked) && KeepsUp(wire, marked)
    }

    /** A confirmed publish is enqueued; one that raises or is refused may have been. */
    method Publish(id: nat) returns (confirmed: bool)
      modifies this`wire
      ensures wire == old(wire) || wire == old(wire) + [id]
      ensures confirmed ==> wire == old(wire) + [id]
    {
      confirmed := *;
      ghost var reached: bool := *;
      if confirmed || reached {
        wire := wire + [id];
      }
    }

    /** One row of the flush: publish, then mark. */
    method FlushOne(id: nat, now: Time) returns (raised: bool)
      requires Valid() && id == marked < |repo.outbox|
      modifies this`wire, this`marked, repo`outbox
      ensures Valid()
      ensures raised ==> marked == old(marked) && repo.outbox == old(repo.outbox) && (wire == old(wire) || wire == old(wire) + [id])
      ensures !raised ==> marked == old(marked) + 1 && wire == old(wire) + [id]
      ensures !raised ==> repo.outbox == old(repo.outbox)[id := old(repo.outbox)[id].(publishedAt := Some(now))]
    {
      KeepsUpSnoc(wire, marked);
      var confirmed := Publish(id);
      if !confirmed {
        return true;
      }
      var fails: bool := *;
      if fails {
        return true;
      }
      repo.MarkPublished(id, now);
      marked := marked + 1;
      return false;
    }

    /** From `wire0` and `rows0`, the rows from `first` on have been published and marked, up to here. */
    ghost predicate Flushed(wire0: seq<nat>, rows0: seq<OutboxRow>, first: nat, now: Time)
      reads this, repo
    {
      && first <= marked <= |repo.outbox|
      && wire == wire0 + Range(first, marked)
      && OnlyMarked(rows0, repo.outbox, first, marked, now)
    }

    /** One round of the flush. */
    method FlushNext(id: nat, now: Time, ghost wire0: seq<nat>, ghost rows0: seq<OutboxRow>, ghost first: nat) returns (raised: bool)
      requires Valid() && id == marked < |repo.outbox| && Flushed(wire0, rows0, first, now)
      modifies this`wire, this`marked, repo`outbox
      ensures Valid()
      ensures marked == if raised then old(marked) else old(marked) + 1
      ensures !raised ==> Flushed(wire0, rows0, first, now)
      ensures raised ==> OnlyMarked(rows0, repo.outbox, first, marked, now)
      ensures raised ==> wire == wire0 + Range(first, marked) || wire == wire0 + Range(first, marked + 1)
    {
      RangeSnoc(wire0, first, marked);
      OneMoreMarked(rows0, repo.outbox, first, marked, now);
      hide Valid, OnlyMarked, Range;
      raised := FlushOne(id, now);
    }

    /**
      `_flush_outbox`: publishes the pending rows one by one and marks each once confirmed. An unconfirmed
      publish, or a failure between publish and mark, ends the flush and leaves the rest for the next.
     */
    method FlushOutbox(now: Time) returns (raised: bool, flushed: nat)
      requires Valid()
      modifies this`wire, this`marked, repo`outbox
      ensures Valid()
      ensures marked == old(marked) + flushed
      ensures wire == old(wire) + Range(old(marked), marked) || (raised && wire == old(wire) + Range(old(marked), marked + 1))
      ensures !raised ==> marked == |repo.outbox| || flushed == BATCH
      ensures OnlyMarked(old(repo.outbox), repo.outbox, old(marked), marked, now)
    {
      ghost var first, wire0, rows0 := marked, wire, repo.outbox;
      ghost var last := if |rows0| - first <= BATCH then |rows0| else first + BATCH;
      PendingFollowsThePrefix(rows0, first, 0, BATCH);
      RangeLength(first, last);
      RangeNone(wire0, first);
      SameRows(rows0, first, now);
      var items := repo.PendingOutbox(BATCH);
      raised, flushed := false, 0;
      while flushed < |items|
        invariant flushed <= |items| && marked == first + flushed
        invariant Valid() && Flushed(wire0, rows0, first, now)
      {
        RangeAt(first, last, flushed);
        assert |repo.outbox| == |rows0|;
        hide Valid, Flushed, Range, Pending, OnlyMarked;
        raised := FlushNext(items[flushed], now, wire0, rows0, first);
        if raised {
          return;
        }
        flushed := flushed + 1;
      }
    }

    /** `_consume`: an undecodable message, or one the database refuses, is discarded for good. */
    method Consume(decoded: Option<Message>, now: Time, stores: bool) returns (verdict: Verdict)
      requires Valid()
      modifies repo`jobs
      ensures Valid()
      ensures verdict == Acknowledge <==> decoded.Some? && stores
      ensures repo.jobs == if verdict == Acknowledge then Apply(old(repo.jobs), decoded.value, now) else old(repo.jobs)
    {
      if decoded.None? || !stores {
        return Discard;
      }
      match decoded.value {
        case LifecycleMsg(jobId, state, occurredAt) => repo.ApplyLifecycle(jobId, state, occurredAt, now);
        case ExtractionMsg(r) => repo.ApplyExtractionResult(r, now);
        case LlmMsg(r) => repo.ApplyLlmResult(r, now);
      }
      return Acknowledge;
    }
  }

  datatype Reply = Created(jobId: JobId) | BadRequest | StorageUnavailable | ServerError | QueueUnavailable

  class Api {
    const repo: JobRepository
    const bridge: BrokerBridge
    var stored: set<string>

    constructor (repo: JobRepository, bridge: BrokerBridge)
      requires bridge.repo == repo && bridge.Valid()
      ensures this.repo == repo && this.bridge == bridge && stored == {} && Valid()
    {
      this.repo, this.bridge, stored := repo, bridge, {};
    }

    ghost predicate Valid()
      reads this, repo, bridge
    {
      bridge.repo == repo && bridge.Valid()
    }

    /** The job's message is, or was, on the jobs queue. */
    ghost predicate Enqueued(jobId: JobId)
      reads this, repo, bridge
    {
      exists i :: 0 <= i < |repo.outbox| && repo.outbox[i].jobId == jobId && i in bridge.wire
    }

    lemma PublishedIsEnqueued(jobId: JobId)
      requires Valid() && repo.IsPublished(jobId)
      ensures Enqueued(jobId)
    {
      var i :| 0 <= i < |repo.outbox| && repo.outbox[i].jobId == jobId && repo.outbox[i].publishedAt.Some?;
      FirstPublishesInOrder(bridge.wire, bridge.marked, i, 0);
    }

    /** `wait_published`, with the bridge's flushes in the meantime. */
    method WaitPublished(jobId: JobId, rounds: nat, now: Time) returns (published: bool)
      requires Valid()
      modifies bridge`wire, bridge`marked, repo`outbox
      ensures Valid() && published == repo.IsPublished(jobId)
      ensures published ==> Enqueued(jobId)
      ensures SameBodies(old(repo.outbox), repo.outbox)
    {
      ghost var before := repo.outbox;
      published := repo.IsPublished(jobId);
      var left := rounds;
      while left > 0 && !published
        invariant Valid() && published == repo.IsPublished(jobId)
        invariant SameBodies(before, repo.outbox)
      {
        var raised, flushed := bridge.FlushOutbox(now);
        published := repo.IsPublished(jobId);
        left := left - 1;
      }
      if published {
        PublishedIsEnqueued(jobId);
      }
    }

    /**
      `submit_document` after the upload was read: store the file, commit the job, wait for the queue.
      Job and file are kept or dropped together; a queue that does not answer in time undoes neither.
     */
    method SubmitDocument(jobId: JobId, filename: string, sourcePath: string, size: nat, allowed: bool, profile: Option<string>,
                          digest: string, writes: bool, commits: bool, rounds: nat, now: Time) returns (reply: Reply)
      requires Valid() && jobId !in repo.jobs && sourcePath !in stored
      modifies this`stored, bridge`wire, bridge`marked, repo
      ensures Valid()
      ensures reply.BadRequest? <==> !allowed || size == 0
      ensures reply.StorageUnavailable? <==> allowed && size > 0 && !writes
      ensures reply.ServerError? <==> allowed && size > 0 && writes && !commits
      ensures jobId in repo.jobs <==> allowed && size > 0 && writes && commits
      ensures reply.Created? <==> jobId in repo.jobs && repo.IsPublished(jobId)
      ensures reply.QueueUnavailable? <==> jobId in repo.jobs && !repo.IsPublished(jobId)
      ensures jobId in repo.jobs ==>
                && repo.jobs[jobId].state == Queued && repo.jobs[jobId].createdAt == now
                && repo.jobs[jobId].llm.state == if profile.Some? && profile.value != "" then Some(Queued) else None
      ensures repo.jobs == if jobId in repo.jobs then old(repo.jobs)[jobId := NewRow(profile, now)] else old(repo.jobs)
      ensures stored == if jobId in repo.jobs then old(stored) + {sourcePath} else old(stored)
      ensures jobId in repo.jobs ==>
                && |repo.outbox| == |old(repo.outbox)| + 1 && repo.outbox[|repo.outbox| - 1].jobId == jobId
                && repo.outbox[|repo.outbox| - 1].body.json
                   == Some(JobPayload(jobId, filename, sourcePath, 0, if profile.Some? then profile.value else ""))
      ensures reply.Created? ==> reply.jobId == jobId && Enqueued(jobId)
    {
      if !allowed || size == 0 {
        return BadRequest;
      }
      if !writes {
        return StorageUnavailable;
      }
      stored := stored + {sourcePath};
      var body := Body(Some(JobPayload(jobId, filename, sourcePath, 0, if profile.Some? then profile.value else "")), digest);
      var ok := repo.CreateJob(jobId, profile, body, 0, now, commits);
      if !ok {
        stored := stored - {sourcePath};
        return ServerError;
      }
      assert MarkedPrefix(repo.outbox, bridge.marked);
      var published := WaitPublished(jobId, rounds, now);
      return if published then Created(jobId) else QueueUnavailable;
    }
  }
}
