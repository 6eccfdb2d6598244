/** Messages on their way from the workers into the job table: queued, taken by the API, projected or discarded. */
module Inbound {
  import opened Options
  import opened Projection

  datatype Taken = Taken(msg: Message, applied: bool)

  /** `inbox` stands for the result, LLM result and lifecycle queues together, in no particular order. */
  datatype Inbound = Inbound(
    jobs: map<JobId, Row>,
    inbox: multiset<Message>,
    taken: map<nat, Taken>,
    discarded: multiset<Message>)

  datatype Step =
    | Put(msg: Message)
    | Take(tag: nat, msg: Message)
    | Project(tag: nat, now: Time)
    | AckTaken(tag: nat)
    | DiscardTaken(tag: nat)
    | Untake(tag: nat)

  /**
    A message is acknowledged only after it was projected, and discarded only when it was not; a taken
    message returns to its queue when the API's channel is lost, projected or not.
   */
  predicate Enabled(s: Inbound, l: Step) {
    match l
    case Put(m) => Target(m) in s.jobs && Target(m) != "" && (m.ExtractionMsg? ==> WorkerBuilt(m.result))
    case Take(tag, m) => m in s.inbox && tag !in s.taken
    case Project(tag, _) => tag in s.taken && !s.taken[tag].applied
    case AckTaken(tag) => tag in s.taken && s.taken[tag].applied
    case DiscardTaken(tag) => tag in s.taken && !s.taken[tag].applied
    case Untake(tag) => tag in s.taken
  }

  function Fire(s: Inbound, l: Step): Inbound
    requires Enabled(s, l)
  {
    match l
    case Put(m) => s.(inbox := s.inbox + multiset{m})
    case Take(tag, m) => s.(inbox := s.inbox - multiset{m}, taken := s.taken[tag := Taken(m, false)])
    case Project(tag, now) =>
      s.(jobs := Apply(s.jobs, s.taken[tag].msg, now), taken := s.taken[tag := s.taken[tag].(applied := true)])
    case AckTaken(tag) => s.(taken := s.taken - {tag})
    case DiscardTaken(tag) => s.(taken := s.taken - {tag}, discarded := s.discarded + multiset{s.taken[tag].msg})
    case Untake(tag) => s.(taken := s.taken - {tag}, inbox := s.inbox + multiset{s.taken[tag].msg})
  }

  /** Is `m` a result, of the extraction or of the LLM worker, for job `j`? */
  predicate IsResult(llm: bool, m: Message, j: JobId) {
    (if llm then m.LlmMsg? else m.ExtractionMsg?) && Target(m) == j
  }

  predicate Projected(llm: bool, row: Row) {
    if llm then row.llm.state.Some? && Terminal(row.llm.state.value) else Terminal(row.state)
  }

  ghost predicate Queued(s: Inbound, llm: bool, j: JobId) {
    exists m :: m in s.inbox && IsResult(llm, m, j)
  }

  ghost predicate InFlight(s: Inbound, llm: bool, j: JobId) {
    exists t :: t in s.taken && IsResult(llm, s.taken[t].msg, j)
  }

  ghost predicate Discarded(s: Inbound, llm: bool, j: JobId) {
    exists m :: m in s.discarded && IsResult(llm, m, j)
  }

  ghost predicate InTable(s: Inbound, llm: bool, j: JobId) {
    j in s.jobs && Projected(llm, s.jobs[j])
  }

  /** The result of job `j` has been published, and this is where it is. */
  ghost predicate HasResult(s: Inbound, llm: bool, j: JobId) {
    Queued(s, llm, j) || InFlight(s, llm, j) || Discarded(s, llm, j) || InTable(s, llm, j)
  }

  predicate Sound(s: Inbound, m: Message) {
    Target(m) in s.jobs && Target(m) != "" && (m.ExtractionMsg? ==> WorkerBuilt(m.result))
  }

  predicate Landed(s: Inbound, m: Message)
    requires Target(m) in s.jobs
  {
    && (m.ExtractionMsg? ==> Projected(false, s.jobs[Target(m)]))
    && (m.LlmMsg? ==> Projected(true, s.jobs[Target(m)]))
  }

  ghost predicate Valid(s: Inbound) {
    && (forall m :: m in s.inbox ==> Sound(s, m))
    && (forall t :: t in s.taken ==> Sound(s, s.taken[t].msg))
    && (forall t :: t in s.taken && s.taken[t].applied ==> Landed(s, s.taken[t].msg))
    && (forall j :: j in s.jobs ==> PathsMatchState(s.jobs[j]))
  }

  lemma ProjectKeeps(jobs: map<JobId, Row>, m: Message, now: Time)
    requires Target(m) in jobs && Target(m) != "" && (m.ExtractionMsg? ==> WorkerBuilt(m.result))
    requires forall j :: j in jobs ==> PathsMatchState(jobs[j])
    ensures var jobs' := Apply(jobs, m, now);
      && jobs'.Keys == jobs.Keys
      && (forall j :: j in jobs ==> PathsMatchState(jobs'[j]))
      && (forall j, llm :: j in jobs && Projected(llm, jobs[j]) ==> Projected(llm, jobs'[j]))
      && (m.ExtractionMsg? ==> Projected(false, jobs'[Target(m)]))
      && (m.LlmMsg? ==> Projected(true, jobs'[Target(m)]))
  {
  }

  lemma ProjectKeepsResults(s: Inbound, tag: nat, now: Time, llm: bool, j: JobId)
    requires Valid(s) && Enabled(s, Project(tag, now)) && HasResult(s, llm, j)
    ensures HasResult(Fire(s, Project(tag, now)), llm, j)
  {
    var s' := Fire(s, Project(tag, now));
    ProjectKeeps(s.jobs, s.taken[tag].msg, now);
    hide Apply, PathsMatchState, WorkerBuilt;
    if InFlight(s, llm, j) {
      var t :| t in s.taken && IsResult(llm, s.taken[t].msg, j);
      assert IsResult(llm, s'.taken[t].msg, j);
    }
  }

  /** A message leaves `taken` acknowledged, discarded or back in its queue; its result stays somewhere. */
  lemma LeavingKeepsResults(s: Inbound, l: Step, llm: bool, j: JobId)
    requires Valid(s) && Enabled(s, l) && (l.AckTaken? || l.DiscardTaken? || l.Untake?) && HasResult(s, llm, j)
    ensures HasResult(Fire(s, l), llm, j)
  {
    hide Apply, PathsMatchState, WorkerBuilt;
    var s' := Fire(s, l);
    if InFlight(s, llm, j) {
      var t :| t in s.taken && IsResult(llm, s.taken[t].msg, j);
      if t != l.tag {
        assert IsResult(llm, s'.taken[t].msg, j);
      } else if l.AckTaken? {
        assert InTable(s', llm, j);
      } else if l.DiscardTaken? {
        assert s.taken[t].msg in s'.discarded;
      } else {
        assert s.taken[t].msg in s'.inbox;
      }
    } else if Queued(s, llm, j) {
      var m :| m in s.inbox && IsResult(llm, m, j);
      assert m in s'.inbox;
    } else if Discarded(s, llm, j) {
      var m :| m in s.discarded && IsResult(llm, m, j);
      assert m in s'.discarded;
    }
  }

  lemma EnteringKeepsResults(s: Inbound, l: Step, llm: bool, j: JobId)
    requires Valid(s) && Enabled(s, l) && (l.Put? || l.Take?)
    ensures HasResult(s, llm, j) ==> HasResult(Fire(s, l), llm, j)
    ensures l.Put? && IsResult(llm, l.msg, j) ==> HasResult(Fire(s, l), llm, j)
  {
    hide Apply, PathsMatchState, WorkerBuilt;
    var s' := Fire(s, l);
    assert l.Put? ==> l.msg in s'.inbox;
    if Queued(s, llm, j) {
      var m :| m in s.inbox && IsResult(llm, m, j);
      assert m in s'.inbox || (l.Take? && s'.taken[l.tag].msg == m);
    } else if InFlight(s, llm, j) {
      var t :| t in s.taken && IsResult(llm, s.taken[t].msg, j);
      assert IsResult(llm, s'.taken[t].msg, j);
    }
  }

  /** A published result is never lost: it is queued, in flight, projected, or was discarded by the API. */
  lemma StepKeepsResults(s: Inbound, l: Step, llm: bool, j: JobId)
    requires Valid(s) && Enabled(s, l)
    ensures HasResult(s, llm, j) ==> HasResult(Fire(s, l), llm, j)
    ensures l.Put? && IsResult(llm, l.msg, j) ==> HasResult(Fire(s, l), llm, j)
  {
    hide HasResult, Fire;
    if l.Put? || l.Take? {
      EnteringKeepsResults(s, l, llm, j);
    } else if HasResult(s, llm, j) {
      if l.Project? {
        ProjectKeepsResults(s, l.tag, l.now, llm, j);
      } else {
        LeavingKeepsResults(s, l, llm, j);
      }
    }
  }

  lemma StepAdvances(s: Inbound, l: Step)
    requires Valid(s) && Enabled(s, l)
    ensures Fire(s, l).jobs.Keys == s.jobs.Keys
    ensures forall j :: j in s.jobs ==> Advances(s.jobs[j], Fire(s, l).jobs[j])
  {
    if l.Project? {
      ApplyAdvances(s.jobs, s.taken[l.tag].msg, l.now);
    }
    hide Apply;
  }

  lemma ProjectKeepsValid(s: Inbound, tag: nat, now: Time)
    requires Valid(s) && Enabled(s, Project(tag, now))
    ensures Valid(Fire(s, Project(tag, now)))
  {
    ProjectKeeps(s.jobs, s.taken[tag].msg, now);
    hide Apply, PathsMatchState, WorkerBuilt, Projected;
  }

  /** Where the messages of the next state come from. */
  lemma MessagesComeFrom(s: Inbound, l: Step)
    requires Enabled(s, l) && !l.Project?
    ensures var s' := Fire(s, l);
      && s'.jobs == s.jobs
      && (forall m :: m in s'.inbox ==> m in s.inbox || (l.Put? && m == l.msg) || (l.Untake? && m == s.taken[l.tag].msg))
      && (forall t :: t in s'.taken ==> (t in s.taken && s'.taken[t] == s.taken[t]) || (l.Take? && s'.taken[t] == Taken(l.msg, false)))
  {
    hide WorkerBuilt;
  }

  /** Every step keeps the invariant. */
  lemma StepKeepsValid(s: Inbound, l: Step)
    requires Valid(s) && Enabled(s, l)
    ensures Valid(Fire(s, l))
  {
    hide Apply, PathsMatchState, WorkerBuilt, Projected, Fire;
    if l.Project? {
      hide Valid, Enabled;
      ProjectKeepsValid(s, l.tag, l.now);
    } else {
      var s' := Fire(s, l);
      MessagesComeFrom(s, l);
      forall m | m in s'.inbox ensures Sound(s', m) {
        assert m in s.inbox ==> Sound(s, m);
      }
    }
  }

  /** A new job, with an id no message names yet. */
  lemma NewJobKeeps(s: Inbound, j: JobId, row: Row, llm: bool, k: JobId)
    requires Valid(s) && j !in s.jobs && PathsMatchState(row)
    ensures var s' := s.(jobs := s.jobs[j := row]);
      Valid(s') && (HasResult(s, llm, k) ==> HasResult(s', llm, k))
  {
    var s' := s.(jobs := s.jobs[j := row]);
    assert forall m :: m in s.inbox ==> Sound(s, m) && Sound(s', m);
    assert forall t :: t in s.taken ==> Sound(s, s.taken[t].msg) && Sound(s', s.taken[t].msg);
    if InFlight(s, llm, k) {
      var t :| t in s.taken && IsResult(llm, s.taken[t].msg, k);
      assert IsResult(llm, s'.taken[t].msg, k);
    }
  }
}
