/** The delay queue (gateway/queue.py): one sorted set scored by due time, a dead-letter index,
    and one hash per job. */
module Queue {
  import opened Outcomes
  import opened Powers
  import opened Router

  type JobId = nat

  datatype Status = Queued | Running | Done | Failed | Dead

  predicate IsTerminal(s: Status) { s.Done? || s.Failed? || s.Dead? }

  /** The error field; the wording beyond these is not modelled. */
  datatype Reason = NoReason | WaitingForCapacity | NoProvider | From(outcome: Outcome)

  datatype Job = Job(
    id: JobId,
    status: Status,
    payload: string,
    attempts: nat,
    createdAtMs: int,
    updatedAtMs: int,
    result: Option<Call>,
    error: Reason)

  /** A job hash. Updating a hash whose TTL has run out brings back only the fields written. */
  datatype JobHash = Full(job: Job) | Partial(status: Status)

  datatype Store = Store(ready: map<JobId, int>, dlq: map<JobId, int>, jobs: map<JobId, JobHash>)

  const NO_JOBS := Store(map[], map[], map[])

  datatype Config = Config(maxAttempts: nat, baseDelayS: real, maxDelayS: real) {
    ghost predicate Valid() {
      1 <= maxAttempts && 0.0 <= baseDelayS && 0.0 <= maxDelayS
    }
  }

  // ---------------------------------------------------------------- backoff

  /** min(base * 2^attempt, cap), in seconds. */
  function Ceiling(cfg: Config, attempt: nat): real {
    var uncapped := cfg.baseDelayS * Pow2(attempt) as real;
    if uncapped <= cfg.maxDelayS then uncapped else cfg.maxDelayS
  }

  /** random.uniform(0, ceiling) for a draw in [0, 1]. */
  function RetryDelayS(cfg: Config, attempt: nat, draw: real): real {
    draw * Ceiling(cfg, attempt)
  }

  /** int(delay_s * 1000); delays are never negative, so truncation is the floor. */
  function Milliseconds(delayS: real): int {
    (delayS * 1000.0).Floor
  }

  /** Full jitter stays inside its window, to the millisecond. */
  lemma DelayBounds(cfg: Config, attempt: nat, draw: real)
    requires cfg.Valid() && 0.0 <= draw <= 1.0
    ensures 0 <= Milliseconds(RetryDelayS(cfg, attempt, draw))
    ensures Milliseconds(RetryDelayS(cfg, attempt, draw)) as real <= 1000.0 * Ceiling(cfg, attempt)
  {
    var c := Ceiling(cfg, attempt);
    CeilingIsNatural(cfg, attempt);
    assert RetryDelayS(cfg, attempt, draw) == draw * c;
    JitterBounds(draw, c);
  }

  lemma JitterBounds(draw: real, c: real)
    requires 0.0 <= draw <= 1.0 && 0.0 <= c
    ensures 0 <= Milliseconds(draw * c) && Milliseconds(draw * c) as real <= 1000.0 * c
  {
    Scaled(draw, c);
    MillisecondsRoundDown(draw * c);
  }

  /** The ceiling doubles with every attempt until it meets the cap, starting from the base. */
  lemma CeilingDoubles(cfg: Config, attempt: nat)
    requires cfg.Valid()
    ensures Ceiling(cfg, 0) == Smaller(cfg.baseDelayS, cfg.maxDelayS)
    ensures Ceiling(cfg, attempt + 1) == Smaller(2.0 * Ceiling(cfg, attempt), cfg.maxDelayS)
  {
    FirstCeiling(cfg);
    var uncapped := cfg.baseDelayS * Pow2(attempt) as real;
    assert cfg.baseDelayS * Pow2(attempt + 1) as real == 2.0 * uncapped;
  }

  function Smaller(a: real, b: real): real { if a <= b then a else b }

  lemma Exceeds(share: real, c: real)
    requires share > 1.0 && c > 0.0
    ensures share * c > c
  {
    assert (share - 1.0) * c > 0.0;
  }

  lemma ShareOf(x: real, c: real) returns (share: real)
    requires 0.0 <= x <= c
    ensures 0.0 <= share <= 1.0 && share * c == x
  {
    if c == 0.0 {
      share := 0.0;
    } else {
      share := x / c;
      assert share * c == x;
      assert share <= 1.0 by {
        if share > 1.0 { Exceeds(share, c); }
      }
    }
  }

  lemma JitterReaches(cfg: Config, attempt: nat, delayS: real) returns (draw: real)
    requires 0.0 <= delayS <= Ceiling(cfg, attempt)
    ensures 0.0 <= draw <= 1.0 && RetryDelayS(cfg, attempt, draw) == delayS
  {
    draw := ShareOf(delayS, Ceiling(cfg, attempt));
  }

  lemma JitterStays(cfg: Config, attempt: nat, draw: real)
    requires cfg.Valid() && 0.0 <= draw <= 1.0
    ensures 0.0 <= RetryDelayS(cfg, attempt, draw) <= Ceiling(cfg, attempt)
  {
    var c := Ceiling(cfg, attempt);
    CeilingIsNatural(cfg, attempt);
    assert RetryDelayS(cfg, attempt, draw) == draw * c;
    Scaled(draw, c);
  }

  lemma JitterEnds(cfg: Config, attempt: nat)
    ensures RetryDelayS(cfg, attempt, 0.0) == 0.0 && RetryDelayS(cfg, attempt, 1.0) == Ceiling(cfg, attempt)
  {}

  /** Full jitter: the draws reach every delay from nothing to the ceiling, and no other. */
  lemma JitterIsFull(cfg: Config, attempt: nat, delayS: real)
    requires cfg.Valid()
    ensures RetryDelayS(cfg, attempt, 0.0) == 0.0 && RetryDelayS(cfg, attempt, 1.0) == Ceiling(cfg, attempt)
    ensures 0.0 <= delayS <= Ceiling(cfg, attempt)
       <==> exists draw :: 0.0 <= draw <= 1.0 && RetryDelayS(cfg, attempt, draw) == delayS
  {
    JitterEnds(cfg, attempt);
    if 0.0 <= delayS <= Ceiling(cfg, attempt) {
      var _ := JitterReaches(cfg, attempt, delayS);
    } else if draw :| 0.0 <= draw <= 1.0 && RetryDelayS(cfg, attempt, draw) == delayS {
      JitterStays(cfg, attempt, draw);
      assert false;
    }
  }

  lemma FirstCeiling(cfg: Config)
    ensures Ceiling(cfg, 0) == if cfg.baseDelayS <= cfg.maxDelayS then cfg.baseDelayS else cfg.maxDelayS
  {
    assert cfg.baseDelayS * Pow2(0) as real == cfg.baseDelayS;
  }

  lemma MillisecondsRoundDown(delayS: real)
    requires 0.0 <= delayS
    ensures 0 <= Milliseconds(delayS) && Milliseconds(delayS) as real <= 1000.0 * delayS
    ensures 1000.0 * delayS < Milliseconds(delayS) as real + 1.0
  {}

  lemma CeilingIsNatural(cfg: Config, attempt: nat)
    requires cfg.Valid()
    ensures 0.0 <= Ceiling(cfg, attempt) <= cfg.maxDelayS
  {
    var p := Pow2(attempt) as real;
    assert p >= 1.0;
    assert 0.0 <= cfg.baseDelayS * p;
  }

  lemma Scaled(draw: real, c: real)
    requires 0.0 <= draw <= 1.0 && 0.0 <= c
    ensures 0.0 <= draw * c <= c
  {
    assert 0.0 <= (1.0 - draw) * c;
  }

  // ---------------------------------------------------------------- single Redis commands

  /** HSET of some fields of a job hash. */
  function Updated(s: Store, id: JobId, status: Status, attempts: Option<nat>, result: Option<Call>,
                   error: Option<Reason>, nowMs: int): Store {
    s.(jobs := s.jobs[id :=
      if id in s.jobs && s.jobs[id].Full? then
        var job := s.jobs[id].job;
        Full(job.(status := status,
                  attempts := if attempts.Some? then attempts.value else job.attempts,
                  result := if result.Some? then result else job.result,
                  error := if error.Some? then error.value else job.error,
                  updatedAtMs := nowMs))
      else Partial(status)])
  }

  /** HSET, EXPIRE and ZADD in one transaction. */
  function Enqueued(s: Store, id: JobId, payload: string, nowMs: int): Store {
    s.(jobs := s.jobs[id := Full(Job(id, Queued, payload, 0, nowMs, nowMs, None, NoReason))],
       ready := s.ready[id := nowMs])
  }

  function Unindexed(s: Store, id: JobId): Store { s.(ready := s.ready - {id}) }

  function Indexed(s: Store, id: JobId, readyAtMs: int): Store { s.(ready := s.ready[id := readyAtMs]) }

  function Marked(s: Store, id: JobId, nowMs: int): Store { Updated(s, id, Running, None, None, None, nowMs) }

  function Rescheduled(s: Store, job: Job, count: bool, error: Reason, nowMs: int): Store {
    Updated(s, job.id, Queued, Some(if count then job.attempts + 1 else job.attempts), None, Some(error), nowMs)
  }

  function Completed(s: Store, id: JobId, result: Call, nowMs: int): Store {
    Updated(s, id, Done, None, Some(result), Some(NoReason), nowMs)
  }

  function Rejected(s: Store, id: JobId, error: Reason, nowMs: int): Store {
    Updated(s, id, Failed, None, None, Some(error), nowMs)
  }

  function Killed(s: Store, id: JobId, error: Reason, nowMs: int): Store {
    Updated(s, id, Dead, None, None, Some(error), nowMs)
  }

  function Buried(s: Store, id: JobId, nowMs: int): Store { s.(dlq := s.dlq[id := nowMs]) }

  /** What ZPOPMIN may return: a member with the least score. */
  predicate IsEarliest(ready: map<JobId, int>, id: JobId) {
    id in ready && forall other :: other in ready ==> ready[id] <= ready[other]
  }

  lemma {:induction false} EarliestExists(ready: map<JobId, int>)
    requires ready != map[]
    ensures exists id :: IsEarliest(ready, id)
    decreases |ready|
  {
    var id :| id in ready;
    var rest := ready - {id};
    assert rest.Keys == ready.Keys - {id};
    if rest == map[] {
      assert forall other :: other in ready ==> other == id || other in rest;
      assert IsEarliest(ready, id);
    } else {
      EarliestExists(rest);
      var least :| IsEarliest(rest, least);
      assert forall other :: other in ready ==> other == id || other in rest;
      assert IsEarliest(ready, if ready[id] <= ready[least] then id else least);
    }
  }

  // ---------------------------------------------------------------- the queue run alone

  /** What pop_due comes back with; reading a partial hash raises a KeyError. */
  datatype Pop = NoJob | Got(job: Job) | Raised

  class DelayQueue {
    var ready: map<JobId, int>
    var dlq: map<JobId, int>
    var jobs: map<JobId, JobHash>

    ghost function View(): Store
      reads this
    {
      Store(ready, dlq, jobs)
    }

    constructor ()
      ensures View() == NO_JOBS
    {
      ready, dlq, jobs := map[], map[], map[];
    }

    /** A new job, due at once; the id is a fresh uuid. */
    method Enqueue(id: JobId, payload: string, nowMs: int)
      requires id !in jobs && id !in ready && id !in dlq
      modifies this
      ensures View() == Enqueued(old(View()), id, payload, nowMs)
    {
      jobs := jobs[id := Full(Job(id, Queued, payload, 0, nowMs, nowMs, None, NoReason))];
      ready := ready[id := nowMs];
    }

    /** Hand out a due job. One comes back only if nothing in the queue is due before it. Nothing
        comes back from a non-empty queue in just two cases: nothing in it is due, or the earliest
        entry was due, its hash had expired, and that one entry is gone. */
    method PopDue(nowMs: int) returns (pop: Pop, ghost id: JobId)
      modifies this
      ensures old(ready) == map[] ==> pop == NoJob && View() == old(View())
      ensures old(ready) != map[] ==> IsEarliest(old(ready), id)
      ensures old(ready) != map[] && old(ready)[id] > nowMs ==>
                && pop == NoJob && View() == old(View())
                && forall other :: other in ready ==> ready[other] > nowMs
      ensures old(ready) != map[] && old(ready)[id] <= nowMs ==>
                && (id !in old(jobs) ==> pop == NoJob && View() == Unindexed(old(View()), id))
                && (id in old(jobs) && old(jobs)[id].Partial? ==> pop == Raised && View() == Unindexed(old(View()), id))
                && (id in old(jobs) && old(jobs)[id].Full? ==>
                      pop == Got(old(jobs)[id].job) && View() == Marked(Unindexed(old(View()), id), id, nowMs))
    {
      if ready == map[] {
        pop, id := NoJob, 0;
        return;
      }
      EarliestExists(ready);
      var least: JobId :| IsEarliest(ready, least);
      var scoreMs := ready[least];
      id := least;
      ready := ready - {least};
      if scoreMs > nowMs {
        ready := ready[least := scoreMs];
        assert ready == old(ready);
        return NoJob, least;
      }
      if least !in jobs {
        return NoJob, least;
      }
      if jobs[least].Partial? {
        return Raised, least;
      }
      pop := Got(jobs[least].job);
      Update(least, Running, None, None, None, nowMs);
    }

    /** Queue the job again, due after the delay, with the attempt charged or not. */
    method Retry(job: Job, delayS: real, error: Reason, count: bool, nowMs: int) returns (readyAtMs: int)
      modifies this
      ensures readyAtMs == nowMs + Milliseconds(delayS)
      ensures View() == Indexed(Rescheduled(old(View()), job, count, error, nowMs), job.id, readyAtMs)
    {
      readyAtMs := nowMs + (delayS * 1000.0).Floor;
      Update(job.id, Queued, Some(if count then job.attempts + 1 else job.attempts), None, Some(error), nowMs);
      ready := ready[job.id := readyAtMs];
    }

    method Complete(job: Job, result: Call, nowMs: int)
      modifies this
      ensures View() == Completed(old(View()), job.id, result, nowMs)
    {
      Update(job.id, Done, None, Some(result), Some(NoReason), nowMs);
    }

    method Fail(job: Job, error: Reason, nowMs: int)
      modifies this
      ensures View() == Rejected(old(View()), job.id, error, nowMs)
    {
      Update(job.id, Failed, None, None, Some(error), nowMs);
    }

    method DeadLetter(job: Job, error: Reason, nowMs: int)
      modifies this
      ensures View() == Buried(Killed(old(View()), job.id, error, nowMs), job.id, nowMs)
    {
      Update(job.id, Dead, None, None, Some(error), nowMs);
      dlq := dlq[job.id := nowMs];
    }

    method Update(id: JobId, status: Status, attempts: Option<nat>, result: Option<Call>, error: Option<Reason>,
                  nowMs: int)
      modifies this
      ensures View() == Updated(old(View()), id, status, attempts, result, error, nowMs)
    {
      if id in jobs && jobs[id].Full? {
        var job := jobs[id].job.(status := status, updatedAtMs := nowMs);
        if attempts.Some? { job := job.(attempts := attempts.value); }
        if result.Some? { job := job.(result := result); }
        if error.Some? { job := job.(error := error.value); }
        jobs := jobs[id := Full(job)];
      } else {
        jobs := jobs[id := Partial(status)];
      }
    }
  }
}
