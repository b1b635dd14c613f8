/** Any number of enqueuers and workers on one queue, interleaving at single Redis commands, with
    workers that may die between any two of them. */
module QueueInterleaving {
  import opened Outcomes
  import opened Router
  import opened Queue
  import opened Worker

  /** The command a busy worker will send next. */
  datatype Pc =
    | Popped(id: JobId, scoreMs: int, nowMs: int)
    | Fetched(job: Job, nowMs: int)
    | Routing(job: Job)
    | Writing(job: Job, verdict: Verdict, draw: real, nowMs: int)
    | Placing(id: JobId, index: Index, nowMs: int)

  function Subject(pc: Pc): JobId {
    match pc
    case Popped(id, _, _) => id
    case Fetched(job, _) => job.id
    case Routing(job) => job.id
    case Writing(job, _, _, _) => job.id
    case Placing(id, _, _) => id
  }

  /** One finished run: which job, how it ended, how many calls it made, the draw of its jitter, and
      the delay it put before the next run, if it left room for one. */
  datatype Finished = Finished(id: JobId, verdict: Verdict, calls: nat, draw: real, delayMs: int)

  datatype Sys = Sys(
    store: Store,
    workers: map<nat, Pc>,
    issued: set<JobId>,
    abandoned: set<JobId>,
    log: seq<Finished>)

  const START := Sys(NO_JOBS, map[], {}, {}, [])

  datatype Action =
    | Submit(id: JobId, payload: string, nowMs: int)
    | Claim(w: nat, id: JobId, nowMs: int)
    | Advance(w: nat)
    | Finish(w: nat, ladder: seq<Rung>, hedge: bool, race: Race, draw: real, nowMs: int)
    | Crash(w: nat)
    | Expire(id: JobId)

  /** Runs one command of a busy worker; None means the worker is idle again. Routing is left by
      Finish alone. */
  function Command(cfg: Config, s: Store, pc: Pc): (Store, Option<Pc>) {
    match pc
    case Popped(id, scoreMs, nowMs) =>
      if scoreMs > nowMs then (Indexed(s, id, scoreMs), None)
      else if id in s.jobs && s.jobs[id].Full? then (s, Some(Fetched(s.jobs[id].job, nowMs)))
      else (s, None)
    case Fetched(job, nowMs) => (Marked(s, job.id, nowMs), Some(Routing(job)))
    case Routing(_) => (s, Some(pc))
    case Writing(job, v, draw, nowMs) =>
      var index := IndexFor(cfg, job, v, draw, nowMs);
      (Written(cfg, s, job, v, nowMs), if index.NoIndex? then None else Some(Placing(job.id, index, nowMs)))
    case Placing(id, index, nowMs) => (Placed(s, id, index, nowMs), None)
  }

  function Entry(cfg: Config, job: Job, ladder: seq<Rung>, walk: Walk, draw: real): Finished {
    var v := Judge(ladder, walk.routed);
    var again := v.Deferred? || (v.Exhausted? && job.attempts + 1 < cfg.maxAttempts);
    Finished(job.id, v, |walk.dialled|, draw, if again then DelayMs(cfg, job, v, draw) else 0)
  }

  /** An action that is not possible changes nothing. */
  function Next(cfg: Config, sys: Sys, a: Action): Sys {
    match a
    case Submit(id, payload, nowMs) =>
      if id in sys.issued then sys
      else sys.(store := Enqueued(sys.store, id, payload, nowMs), issued := sys.issued + {id})
    case Claim(w, id, nowMs) =>
      if w in sys.workers || !IsEarliest(sys.store.ready, id) then sys
      else sys.(store := Unindexed(sys.store, id), workers := sys.workers[w := Popped(id, sys.store.ready[id], nowMs)])
    case Advance(w) =>
      if w !in sys.workers || sys.workers[w].Routing? then sys
      else
        var (store, pc) := Command(cfg, sys.store, sys.workers[w]);
        sys.(store := store, workers := if pc.Some? then sys.workers[w := pc.value] else sys.workers - {w})
    case Finish(w, ladder, hedge, race, draw, nowMs) =>
      if w !in sys.workers || !sys.workers[w].Routing? || !(0.0 <= draw <= 1.0) then sys
      else
        var job, walk := sys.workers[w].job, Routed(ladder, hedge, race);
        sys.(workers := sys.workers[w := Writing(job, Judge(ladder, walk.routed), draw, nowMs)],
             log := sys.log + [Entry(cfg, job, ladder, walk, draw)])
    case Crash(w) =>
      if w !in sys.workers then sys
      else sys.(workers := sys.workers - {w}, abandoned := sys.abandoned + {Subject(sys.workers[w])})
    case Expire(id) =>
      sys.(store := sys.store.(jobs := sys.store.jobs - {id}))
  }

  ghost predicate Held(sys: Sys, id: JobId) {
    exists w :: w in sys.workers && Subject(sys.workers[w]) == id
  }

  /** Any run from an empty queue. */
  ghost predicate IsRun(cfg: Config, ss: seq<Sys>, acts: seq<Action>) {
    && |ss| == |acts| + 1
    && ss[0] == START
    && forall i :: 0 <= i < |acts| ==> ss[i + 1] == Next(cfg, ss[i], acts[i])
  }

  /** The next command of this worker is an update of its job's hash. */
  predicate IsUpdate(pc: Pc) { pc.Fetched? || pc.Writing? }

  /** A worker updates a hash whose TTL has run out. */
  predicate UpdatesExpired(sys: Sys, a: Action) {
    a.Advance? && a.w in sys.workers && IsUpdate(sys.workers[a.w]) && Subject(sys.workers[a.w]) !in sys.store.jobs
  }

  /** A run in which hashes may expire at any time, but no update finds its hash gone. */
  ghost predicate IsInterleaving(cfg: Config, ss: seq<Sys>, acts: seq<Action>) {
    IsRun(cfg, ss, acts) && forall i :: 0 <= i < |acts| ==> !UpdatesExpired(ss[i], acts[i])
  }

  // ---------------------------------------------------------------- the ledger

  /** The finished runs of a job that dialled a provider and ended exhausted. */
  function Counted(log: seq<Finished>, id: JobId): nat {
    if log == [] then 0
    else Counted(log[..|log| - 1], id) + if log[|log| - 1].id == id && log[|log| - 1].verdict.Exhausted? then 1 else 0
  }

  lemma CountedAppend(log: seq<Finished>, e: Finished, id: JobId)
    ensures Counted(log + [e], id) == Counted(log, id) + if e.id == id && e.verdict.Exhausted? then 1 else 0
  {
    assert (log + [e])[..|log|] == log;
  }

  // ---------------------------------------------------------------- the invariant

  /** Everybody knows a job under one roof only. */
  ghost predicate Exclusive(sys: Sys) {
    && (forall w, v :: w in sys.workers && v in sys.workers && w != v ==>
        Subject(sys.workers[w]) != Subject(sys.workers[v]))
    && (forall w :: w in sys.workers ==>
          && Subject(sys.workers[w]) in sys.issued
          && Subject(sys.workers[w]) !in sys.store.ready
          && Subject(sys.workers[w]) !in sys.abandoned)
    && (forall id :: id in sys.store.ready ==> id in sys.issued && id !in sys.abandoned)
    && (forall id :: id in sys.store.jobs ==> id in sys.issued)
    && (forall id :: id in sys.store.dlq ==> id in sys.issued)
    && (forall id :: id in sys.abandoned ==> id in sys.issued)
    && (forall id :: id !in sys.issued ==> Counted(sys.log, id) == 0)
  }

  /** A job that may still be run: its stored attempts are exactly its counted runs, below the limit. */
  ghost predicate Runnable(cfg: Config, sys: Sys, id: JobId, status: Status) {
    && id in sys.store.jobs && sys.store.jobs[id].Full?
    && sys.store.jobs[id].job.id == id
    && sys.store.jobs[id].job.status == status
    && sys.store.jobs[id].job.attempts == Counted(sys.log, id) < cfg.maxAttempts
  }

  /** A job whose last counted run used up the budget. */
  ghost predicate Exceeded(cfg: Config, sys: Sys, id: JobId) {
    && id in sys.store.jobs && sys.store.jobs[id].Full?
    && sys.store.jobs[id].job.status == Dead
    && sys.store.jobs[id].job.attempts + 1 == Counted(sys.log, id) == cfg.maxAttempts
  }

  ghost predicate Over(cfg: Config, sys: Sys, id: JobId) {
    || (Exceeded(cfg, sys, id) && id in sys.store.dlq)
    || ((Runnable(cfg, sys, id, Done) || Runnable(cfg, sys, id, Failed)) && id !in sys.store.dlq)
  }

  /** What a worker holding a job knows about it: its copy is never out of date. */
  ghost predicate UpToDate(cfg: Config, sys: Sys, pc: Pc) {
    var id := Subject(pc);
    match pc
    case Popped(_, _, _) => id in sys.store.jobs ==> Runnable(cfg, sys, id, Queued) && id !in sys.store.dlq
    case Fetched(job, _) =>
      && job.attempts == Counted(sys.log, id) < cfg.maxAttempts
      && (id in sys.store.jobs ==> Runnable(cfg, sys, id, Queued) && sys.store.jobs[id].job == job)
      && id !in sys.store.dlq
    case Routing(job) =>
      && job.attempts == Counted(sys.log, id) < cfg.maxAttempts
      && (id in sys.store.jobs ==> Runnable(cfg, sys, id, Running))
      && id !in sys.store.dlq
    case Writing(job, v, draw, _) =>
      && job.attempts + (if v.Exhausted? then 1 else 0) == Counted(sys.log, id)
      && job.attempts < cfg.maxAttempts
      && (id in sys.store.jobs ==> Awaiting(sys, id, job.attempts))
      && Earned(v)
      && id !in sys.store.dlq
    case Placing(_, index, _) =>
      match index
      case NoIndex => false
      case ToReady(_) => (id in sys.store.jobs ==> Runnable(cfg, sys, id, Queued)) && id !in sys.store.dlq
      case ToDlq => (id in sys.store.jobs ==> Exceeded(cfg, sys, id)) && id !in sys.store.dlq
  }

  /** A job that has been run and whose verdict is still to be written. */
  ghost predicate Awaiting(sys: Sys, id: JobId, attempts: nat)
    requires id in sys.store.jobs
  {
    && sys.store.jobs[id].Full?
    && sys.store.jobs[id].job.id == id
    && sys.store.jobs[id].job.status == Running
    && sys.store.jobs[id].job.attempts == attempts
  }

  ghost predicate Resting(cfg: Config, sys: Sys, id: JobId) {
    if id in sys.store.ready then Runnable(cfg, sys, id, Queued) && id !in sys.store.dlq
    else Over(cfg, sys, id)
  }

  /** A verdict carries what it was reached on. */
  ghost predicate Earned(v: Verdict) {
    match v
    case Answered(call) => IsOk(call.outcome)
    case Refused(reason) => CallersFault(reason)
    case Deferred => true
    case Exhausted(last) => KindOf(last.outcome) == ProviderFault
  }

  predicate CallersFault(reason: Reason) {
    reason == NoProvider || (reason.From? && KindOf(reason.outcome) == CallerFault)
  }

  /** A finished job's hash says why it finished. */
  ghost predicate EndsRight(job: Job) {
    && (job.status == Done ==> job.result.Some? && IsOk(job.result.value.outcome) && job.error == NoReason)
    && (job.status == Failed ==> CallersFault(job.error))
    && (job.status == Dead ==> job.error.From? && KindOf(job.error.outcome) == ProviderFault)
  }

  /** The stored attempts are the counted runs, or are about to be. */
  ghost predicate Accounted(cfg: Config, sys: Sys, id: JobId)
    requires id in sys.store.jobs && sys.store.jobs[id].Full?
  {
    var attempts := sys.store.jobs[id].job.attempts;
    attempts <= Counted(sys.log, id) <= attempts + 1 && Counted(sys.log, id) <= cfg.maxAttempts
  }

  /** Everything claimed about one job. */
  ghost predicate JobInv(cfg: Config, sys: Sys, id: JobId) {
    && (forall w :: w in sys.workers && Subject(sys.workers[w]) == id ==> UpToDate(cfg, sys, sys.workers[w]))
    && (id in sys.store.jobs && !Held(sys, id) && id !in sys.abandoned ==> Resting(cfg, sys, id))
    && (id in sys.store.jobs ==> sys.store.jobs[id].Full? && EndsRight(sys.store.jobs[id].job))
    && (id in sys.store.jobs ==> Accounted(cfg, sys, id))
    && (id in sys.store.jobs && id in sys.store.dlq ==> sys.store.jobs[id].job.status == Dead)
  }

  ghost predicate Inv(cfg: Config, sys: Sys) {
    Exclusive(sys) && forall id :: JobInv(cfg, sys, id)
  }

  /** Nothing about this job differs between the two states. */
  ghost predicate SameFor(s: Sys, t: Sys, id: JobId) {
    && (id in s.store.jobs <==> id in t.store.jobs)
    && (id in s.store.jobs ==> s.store.jobs[id] == t.store.jobs[id])
    && (id in s.store.ready <==> id in t.store.ready)
    && (id in s.store.dlq <==> id in t.store.dlq)
    && (id in s.abandoned <==> id in t.abandoned)
    && Counted(s.log, id) == Counted(t.log, id)
    && (forall w :: w in t.workers && Subject(t.workers[w]) == id ==> w in s.workers && s.workers[w] == t.workers[w])
    && (forall w :: w in s.workers && Subject(s.workers[w]) == id ==> w in t.workers && s.workers[w] == t.workers[w])
  }

  lemma OthersKeep(cfg: Config, s: Sys, t: Sys, id: JobId)
    requires JobInv(cfg, s, id) && SameFor(s, t, id)
    ensures JobInv(cfg, t, id)
  {
    assert Held(s, id) <==> Held(t, id);
  }

  /** An action on one job keeps the invariant if it keeps it for that job. */
  lemma OneJobChanged(cfg: Config, s: Sys, t: Sys, id: JobId)
    requires Inv(cfg, s) && Exclusive(t) && JobInv(cfg, t, id)
    requires forall other :: other != id ==> SameFor(s, t, other)
    ensures Inv(cfg, t)
  {
    forall other ensures JobInv(cfg, t, other) {
      if other != id { OthersKeep(cfg, s, t, other); }
    }
  }

  lemma SubmitKeeps(cfg: Config, s: Sys, id: JobId, payload: string, nowMs: int)
    requires cfg.Valid() && Inv(cfg, s) && id !in s.issued
    ensures Inv(cfg, Next(cfg, s, Submit(id, payload, nowMs)))
  {
    var t := Next(cfg, s, Submit(id, payload, nowMs));
    assert JobInv(cfg, s, id);
    OneJobChanged(cfg, s, t, id);
  }

  lemma ClaimKeeps(cfg: Config, s: Sys, w: nat, id: JobId, nowMs: int)
    requires Inv(cfg, s) && w !in s.workers && IsEarliest(s.store.ready, id)
    ensures Inv(cfg, Next(cfg, s, Claim(w, id, nowMs)))
  {
    var t := Next(cfg, s, Claim(w, id, nowMs));
    assert JobInv(cfg, s, id);
    assert !Held(s, id);
    assert Subject(t.workers[w]) == id;
    assert Held(t, id);
    OneJobChanged(cfg, s, t, id);
  }

  function Judged(s: Sys, w: nat, e: Finished, draw: real, nowMs: int): Sys
    requires w in s.workers && s.workers[w].Routing?
  {
    s.(workers := s.workers[w := Writing(s.workers[w].job, e.verdict, draw, nowMs)], log := s.log + [e])
  }

  lemma FinishKeeps(cfg: Config, s: Sys, w: nat, e: Finished, draw: real, nowMs: int)
    requires Inv(cfg, s) && w in s.workers && s.workers[w].Routing? && e.id == s.workers[w].job.id && Earned(e.verdict)
    ensures Inv(cfg, Judged(s, w, e, draw, nowMs))
  {
    var t := Judged(s, w, e, draw, nowMs);
    FinishStaysExclusive(s, w, e, draw, nowMs);
    FinishKeepsSubject(cfg, s, w, e, draw, nowMs);
    forall other | other != e.id ensures SameFor(s, t, other) {
      CountedAppend(s.log, e, other);
    }
    OneJobChanged(cfg, s, t, e.id);
  }

  lemma FinishStaysExclusive(s: Sys, w: nat, e: Finished, draw: real, nowMs: int)
    requires Exclusive(s) && w in s.workers && s.workers[w].Routing? && e.id == s.workers[w].job.id
    ensures Exclusive(Judged(s, w, e, draw, nowMs))
  {
    forall other | other != e.id ensures Counted(s.log + [e], other) == Counted(s.log, other) {
      CountedAppend(s.log, e, other);
    }
  }

  lemma FinishKeepsSubject(cfg: Config, s: Sys, w: nat, e: Finished, draw: real, nowMs: int)
    requires Inv(cfg, s) && w in s.workers && s.workers[w].Routing? && e.id == s.workers[w].job.id && Earned(e.verdict)
    ensures JobInv(cfg, Judged(s, w, e, draw, nowMs), e.id)
  {
    var t := Judged(s, w, e, draw, nowMs);
    CountedAppend(s.log, e, e.id);
    assert JobInv(cfg, s, e.id) && UpToDate(cfg, s, s.workers[w]);
    assert Subject(t.workers[w]) == e.id;
    assert Held(t, e.id);
  }

  lemma CrashKeeps(cfg: Config, s: Sys, w: nat)
    requires Inv(cfg, s) && w in s.workers
    ensures Inv(cfg, Next(cfg, s, Crash(w)))
  {
    var t := Next(cfg, s, Crash(w));
    var id := Subject(s.workers[w]);
    assert JobInv(cfg, s, id);
    OneJobChanged(cfg, s, t, id);
  }

  lemma ExpireKeeps(cfg: Config, s: Sys, id: JobId)
    requires Inv(cfg, s)
    ensures Inv(cfg, Next(cfg, s, Expire(id)))
  {
    var t := Next(cfg, s, Expire(id));
    assert JobInv(cfg, s, id);
    OneJobChanged(cfg, s, t, id);
  }

  /** A command touches nothing but its own job's entries. */
  lemma CommandFrames(cfg: Config, s: Store, pc: Pc, other: JobId)
    requires other != Subject(pc)
    ensures var t := Command(cfg, s, pc).0;
            && (other in s.jobs <==> other in t.jobs)
            && (other in s.jobs ==> s.jobs[other] == t.jobs[other])
            && (other in s.ready <==> other in t.ready)
            && (other in s.ready ==> s.ready[other] == t.ready[other])
            && (other in s.dlq <==> other in t.dlq)
            && (other in s.dlq ==> s.dlq[other] == t.dlq[other])
  {}

  lemma CommandKeepsSubject(cfg: Config, s: Store, pc: Pc)
    requires Command(cfg, s, pc).1.Some?
    requires pc.Popped? ==> pc.id in s.jobs && s.jobs[pc.id].Full? && s.jobs[pc.id].job.id == pc.id
    ensures Subject(Command(cfg, s, pc).1.value) == Subject(pc)
  {}

  function Stepped(s: Sys, w: nat, store: Store, pc: Option<Pc>): Sys {
    s.(store := store, workers := if pc.Some? then s.workers[w := pc.value] else s.workers - {w})
  }

  lemma AdvanceKeeps(cfg: Config, s: Sys, w: nat)
    requires Inv(cfg, s) && w in s.workers && !s.workers[w].Routing? && !UpdatesExpired(s, Advance(w))
    ensures Inv(cfg, Next(cfg, s, Advance(w)))
  {
    var pc := s.workers[w];
    var id := Subject(pc);
    var (store, pc') := Command(cfg, s.store, pc);
    var t := Stepped(s, w, store, pc');
    HolderKeepsSubject(cfg, s, w);
    AdvanceStaysExclusive(cfg, s, w, store, pc');
    AdvanceKeepsSubject(cfg, s, w);
    forall other | other != id ensures SameFor(s, t, other) {
      AdvanceKeepsOthers(cfg, s, w, other);
    }
    OneJobChanged(cfg, s, t, id);
  }

  lemma HolderKeepsSubject(cfg: Config, s: Sys, w: nat)
    requires Inv(cfg, s) && w in s.workers && !s.workers[w].Routing?
    ensures var pc' := Command(cfg, s.store, s.workers[w]).1;
            pc'.Some? ==> Subject(pc'.value) == Subject(s.workers[w])
  {
    var pc := s.workers[w];
    assert JobInv(cfg, s, Subject(pc)) && UpToDate(cfg, s, pc);
    if Command(cfg, s.store, pc).1.Some? { CommandKeepsSubject(cfg, s.store, pc); }
  }

  lemma AdvanceKeepsOthers(cfg: Config, s: Sys, w: nat, other: JobId)
    requires w in s.workers && other != Subject(s.workers[w])
    requires var pc' := Command(cfg, s.store, s.workers[w]).1;
             pc'.Some? ==> Subject(pc'.value) == Subject(s.workers[w])
    ensures var (store, pc') := Command(cfg, s.store, s.workers[w]);
            SameFor(s, Stepped(s, w, store, pc'), other)
  {
    CommandFrames(cfg, s.store, s.workers[w], other);
  }

  lemma AdvanceStaysExclusive(cfg: Config, s: Sys, w: nat, store: Store, pc': Option<Pc>)
    requires Exclusive(s) && w in s.workers && (store, pc') == Command(cfg, s.store, s.workers[w])
    requires pc'.Some? ==> Subject(pc'.value) == Subject(s.workers[w])
    ensures Exclusive(Stepped(s, w, store, pc'))
  {
    var id := Subject(s.workers[w]);
    forall other | other != id
      ensures (other in s.store.jobs <==> other in store.jobs)
      ensures (other in s.store.ready <==> other in store.ready)
      ensures (other in s.store.dlq <==> other in store.dlq)
    {
      CommandFrames(cfg, s.store, s.workers[w], other);
    }
    if pc'.Some? {
      assert id !in store.ready;
    }
  }

  lemma AdvanceKeepsSubject(cfg: Config, s: Sys, w: nat)
    requires Inv(cfg, s) && w in s.workers && !s.workers[w].Routing? && !UpdatesExpired(s, Advance(w))
    ensures JobInv(cfg, Next(cfg, s, Advance(w)), Subject(s.workers[w]))
  {
    var t := Next(cfg, s, Advance(w));
    var id := Subject(s.workers[w]);
    assert JobInv(cfg, s, id) && UpToDate(cfg, s, s.workers[w]);
    assert w in t.workers ==> Held(t, id);
  }

  lemma NextKeeps(cfg: Config, s: Sys, a: Action)
    requires cfg.Valid() && Inv(cfg, s) && !UpdatesExpired(s, a)
    ensures Inv(cfg, Next(cfg, s, a))
  {
    match a
    case Submit(id, payload, nowMs) => if id !in s.issued { SubmitKeeps(cfg, s, id, payload, nowMs); }
    case Claim(w, id, nowMs) =>
      if w !in s.workers && IsEarliest(s.store.ready, id) { ClaimKeeps(cfg, s, w, id, nowMs); }
    case Advance(w) => if w in s.workers && !s.workers[w].Routing? { AdvanceKeeps(cfg, s, w); }
    case Finish(w, ladder, hedge, race, draw, nowMs) =>
      if w in s.workers && s.workers[w].Routing? && 0.0 <= draw <= 1.0 {
        VerdictsAreEarned(ladder, hedge, race);
        FinishKeeps(cfg, s, w, Entry(cfg, s.workers[w].job, ladder, Routed(ladder, hedge, race), draw), draw, nowMs);
      }
    case Crash(w) => if w in s.workers { CrashKeeps(cfg, s, w); }
    case Expire(id) => ExpireKeeps(cfg, s, id);
  }

  lemma {:induction false} InvAlways(cfg: Config, ss: seq<Sys>, acts: seq<Action>, i: nat)
    requires cfg.Valid() && IsInterleaving(cfg, ss, acts) && i < |ss|
    ensures Inv(cfg, ss[i])
  {
    if i > 0 {
      InvAlways(cfg, ss, acts, i - 1);
      NextKeeps(cfg, ss[i - 1], acts[i - 1]);
    }
  }

  // ---------------------------------------------------------------- what it means

  ghost predicate ExactlyOne(a: bool, b: bool, c: bool, d: bool) {
    (if a then 1 else 0) + (if b then 1 else 0) + (if c then 1 else 0) + (if d then 1 else 0) == 1
  }

  /** The job has run its course and nobody has anything left to write about it. */
  ghost predicate Finalised(sys: Sys, id: JobId) {
    && id in sys.store.jobs && sys.store.jobs[id].Full? && IsTerminal(sys.store.jobs[id].job.status)
    && !Held(sys, id) && id !in sys.abandoned
  }

  /** Conservation: at every step every accepted job whose hash has not expired is ready, or held
      by one worker and no other, or finalised, or was abandoned by a worker that died holding it;
      never two of these. A ready job reads QUEUED and a dead-lettered one DEAD. */
  lemma EveryJobIsInOnePlace(cfg: Config, ss: seq<Sys>, acts: seq<Action>, i: nat, id: JobId)
    requires cfg.Valid() && IsInterleaving(cfg, ss, acts) && i < |ss| && id in ss[i].store.jobs
    ensures var s := ss[i];
            && ExactlyOne(id in s.store.ready, Held(s, id), Finalised(s, id), id in s.abandoned)
            && (forall w, v :: w in s.workers && v in s.workers ==>
                  Subject(s.workers[w]) == id == Subject(s.workers[v]) ==> w == v)
            && s.store.jobs[id].Full?
            && (id in s.store.ready ==> s.store.jobs[id].job.status == Queued)
            && (id in s.store.dlq ==> s.store.jobs[id].job.status == Dead)
  {
    InvAlways(cfg, ss, acts, i);
    assert JobInv(cfg, ss[i], id);
  }

  /** The attempt ledger. The stored attempts of any job are its finished runs that dialled a
      provider and ended exhausted, or are one short of them while the last is still to be written
      or was lost with its worker. Of a job nobody holds and nobody abandoned they are exactly
      these, as long as it is not DEAD; and it is DEAD, and in the dead-letter queue, exactly when
      their count is max_attempts. */
  lemma AttemptLedger(cfg: Config, ss: seq<Sys>, acts: seq<Action>, i: nat, id: JobId)
    requires cfg.Valid() && IsInterleaving(cfg, ss, acts) && i < |ss| && id in ss[i].store.jobs
    ensures ss[i].store.jobs[id].Full?
    ensures var s := ss[i];
            var job := s.store.jobs[id].job;
            && job.attempts <= Counted(s.log, id) <= job.attempts + 1
            && Counted(s.log, id) <= cfg.maxAttempts
            && (!Held(s, id) && id !in s.abandoned ==>
                  && job.attempts < cfg.maxAttempts
                  && (job.status != Dead ==> job.attempts == Counted(s.log, id))
                  && (job.status == Dead <==> Counted(s.log, id) == cfg.maxAttempts)
                  && (job.status == Dead <==> id in s.store.dlq))
  {
    InvAlways(cfg, ss, acts, i);
    assert JobInv(cfg, ss[i], id);
  }

  /** The dead-letter queue is a signal: every job in it ran out its budget and last failed on a
      provider's fault, never on the caller's; a FAILED job is the caller's fault or has no
      provider at all and is not in it; a DONE job carries the answer of a provider. */
  lemma DeadLettersAreOutageCasualties(cfg: Config, ss: seq<Sys>, acts: seq<Action>, i: nat, id: JobId)
    requires cfg.Valid() && IsInterleaving(cfg, ss, acts) && i < |ss| && id in ss[i].store.jobs
    ensures ss[i].store.jobs[id].Full?
    ensures var s := ss[i];
            var job := s.store.jobs[id].job;
            && (id in s.store.dlq ==>
                job.status == Dead && job.error.From? && KindOf(job.error.outcome) == ProviderFault)
            && (job.status == Failed ==> CallersFault(job.error) && id !in s.store.dlq)
            && (job.status == Done ==> job.result.Some? && IsOk(job.result.value.outcome) && id !in s.store.dlq)
  {
    InvAlways(cfg, ss, acts, i);
    assert JobInv(cfg, ss[i], id);
  }

  // ---------------------------------------------------------------- terminal states

  lemma TerminalStep(cfg: Config, s: Sys, a: Action, id: JobId)
    requires cfg.Valid() && Inv(cfg, s) && !UpdatesExpired(s, a)
    requires id in s.store.jobs && s.store.jobs[id].Full? && IsTerminal(s.store.jobs[id].job.status)
    ensures var t := Next(cfg, s, a); id in t.store.jobs ==> t.store.jobs[id] == s.store.jobs[id]
  {
    assert JobInv(cfg, s, id);
    if a.Advance? && a.w in s.workers && !s.workers[a.w].Routing? {
      var pc := s.workers[a.w];
      if Subject(pc) == id {
        assert UpToDate(cfg, s, pc);
      } else {
        CommandFrames(cfg, s.store, pc, id);
      }
    }
  }

  lemma OnlyUpdatesWrite(cfg: Config, s: Store, pc: Pc)
    requires !IsUpdate(pc)
    ensures Command(cfg, s, pc).0.jobs == s.jobs
  {}

  /** An id whose hash is gone stays gone: ids are never reused, and no update finds a hash gone. */
  lemma GoneStep(cfg: Config, s: Sys, a: Action, id: JobId)
    requires !UpdatesExpired(s, a) && id in s.issued && id !in s.store.jobs
    ensures id in Next(cfg, s, a).issued && id !in Next(cfg, s, a).store.jobs
  {
    if a.Advance? && a.w in s.workers {
      var pc := s.workers[a.w];
      if Subject(pc) != id {
        CommandFrames(cfg, s.store, pc, id);
      } else {
        OnlyUpdatesWrite(cfg, s.store, pc);
      }
    }
  }

  /** DONE, FAILED and DEAD are never left: as long as the hash lives it never changes again, the
      job never re-enters the ready set, and a job that ended DONE or FAILED is never dead-lettered. */
  lemma {:induction false} TerminalForever(cfg: Config, ss: seq<Sys>, acts: seq<Action>, i: nat, k: nat, id: JobId)
    requires cfg.Valid() && IsInterleaving(cfg, ss, acts) && i <= k < |ss|
    requires id in ss[i].store.jobs && ss[i].store.jobs[id].Full? && IsTerminal(ss[i].store.jobs[id].job.status)
    ensures id in ss[k].issued
    ensures id in ss[k].store.jobs ==>
              && ss[k].store.jobs[id] == ss[i].store.jobs[id]
              && id !in ss[k].store.ready
              && (id in ss[k].store.dlq ==> ss[i].store.jobs[id].job.status == Dead)
  {
    InvAlways(cfg, ss, acts, k);
    assert JobInv(cfg, ss[k], id);
    if i < k {
      TerminalForever(cfg, ss, acts, i, k - 1, id);
      InvAlways(cfg, ss, acts, k - 1);
      assert JobInv(cfg, ss[k - 1], id);
      if id in ss[k - 1].store.jobs {
        TerminalStep(cfg, ss[k - 1], acts[k - 1], id);
      } else {
        GoneStep(cfg, ss[k - 1], acts[k - 1], id);
      }
    }
  }

  ghost predicate SameRequest(before: JobHash, after: JobHash) {
    && before.Full? && after.Full?
    && after.job.payload == before.job.payload
    && after.job.createdAtMs == before.job.createdAtMs
  }

  lemma RequestStep(cfg: Config, s: Sys, a: Action, id: JobId)
    requires id in s.store.jobs && s.store.jobs[id].Full?
    requires id in Next(cfg, s, a).store.jobs && Next(cfg, s, a).store.jobs[id].Full?
    requires id in s.issued
    ensures SameRequest(s.store.jobs[id], Next(cfg, s, a).store.jobs[id])
  {
    if a.Advance? && a.w in s.workers && !s.workers[a.w].Routing? && Subject(s.workers[a.w]) != id {
      CommandFrames(cfg, s.store, s.workers[a.w], id);
    }
  }

  lemma AlwaysReadable(cfg: Config, ss: seq<Sys>, acts: seq<Action>, i: nat, id: JobId)
    requires cfg.Valid() && IsInterleaving(cfg, ss, acts) && i < |ss| && id in ss[i].store.jobs
    ensures id in ss[i].issued && ss[i].store.jobs[id].Full?
  {
    InvAlways(cfg, ss, acts, i);
    assert JobInv(cfg, ss[i], id);
  }

  lemma IssuedForever(cfg: Config, s: Sys, a: Action, id: JobId)
    requires id in s.issued
    ensures id in Next(cfg, s, a).issued
  {}

  /** The request a job carries and when it was accepted are what they were at submission. */
  lemma {:induction false} JobKeepsItsRequest(cfg: Config, ss: seq<Sys>, acts: seq<Action>, i: nat, k: nat, id: JobId)
    requires cfg.Valid() && IsInterleaving(cfg, ss, acts) && i <= k < |ss|
    requires id in ss[i].store.jobs
    ensures id in ss[k].issued
    ensures id in ss[k].store.jobs ==> SameRequest(ss[i].store.jobs[id], ss[k].store.jobs[id])
  {
    if id in ss[k].store.jobs {
      AlwaysReadable(cfg, ss, acts, k, id);
    }
    if i < k {
      JobKeepsItsRequest(cfg, ss, acts, i, k - 1, id);
      IssuedForever(cfg, ss[k - 1], acts[k - 1], id);
      if id !in ss[k - 1].store.jobs {
        InvAlways(cfg, ss, acts, k - 1);
        GoneStep(cfg, ss[k - 1], acts[k - 1], id);
      } else if id in ss[k].store.jobs {
        RequestStep(cfg, ss[k - 1], acts[k - 1], id);
      }
    }
  }

  /** And these are the ones it was submitted with. */
  lemma SubmittedJobKeepsItsRequest(cfg: Config, ss: seq<Sys>, acts: seq<Action>, i: nat, k: nat)
    requires cfg.Valid() && IsInterleaving(cfg, ss, acts) && i < k < |ss|
    requires acts[i].Submit? && acts[i].id !in ss[i].issued
    ensures var id := acts[i].id;
            id in ss[k].store.jobs ==>
              && ss[k].store.jobs[id].Full?
              && ss[k].store.jobs[id].job.payload == acts[i].payload
              && ss[k].store.jobs[id].job.createdAtMs == acts[i].nowMs
  {
    assert ss[i + 1] == Next(cfg, ss[i], acts[i]);
    JobKeepsItsRequest(cfg, ss, acts, i + 1, k, acts[i].id);
  }

  // ---------------------------------------------------------------- the log

  /** A delay of at most this many attempts' ceiling. */
  predicate WithinCeiling(cfg: Config, delayMs: int, attempt: nat) {
    0 <= delayMs && delayMs as real <= 1000.0 * Ceiling(cfg, attempt)
  }

  /** A delay that is this draw's part of the attempt's ceiling, in whole milliseconds. */
  predicate Jittered(cfg: Config, delayMs: int, draw: real, attempt: nat) {
    var exactMs := 1000.0 * (draw * Ceiling(cfg, attempt));
    0.0 <= draw <= 1.0 && delayMs as real <= exactMs < delayMs as real + 1.0
  }

  /** Every run in the log was judged on what it did: a deferral made no call and draws its delay
      under the first ceiling whatever the job has been through; an exhausted run made at least one
      call, and draws it under the ceiling of the attempts before it unless it was the last. */
  ghost predicate HonestEntry(cfg: Config, before: seq<Finished>, e: Finished) {
    match e.verdict
    case Deferred => e.calls == 0 && WithinCeiling(cfg, e.delayMs, 0) && Jittered(cfg, e.delayMs, e.draw, 0)
    case Exhausted(last) =>
      var attempt := Counted(before, e.id);
      && e.calls > 0 && KindOf(last.outcome) == ProviderFault
      && WithinCeiling(cfg, e.delayMs, attempt)
      && if attempt + 1 < cfg.maxAttempts then Jittered(cfg, e.delayMs, e.draw, attempt) else e.delayMs == 0
    case _ => e.delayMs == 0
  }

  ghost predicate HonestLog(cfg: Config, log: seq<Finished>) {
    forall n :: 0 <= n < |log| ==> HonestEntry(cfg, log[..n], log[n])
  }

  lemma {:induction false} EntryIsHonest(cfg: Config, before: seq<Finished>, job: Job, ladder: seq<Rung>, hedge: bool,
                                         race: Race, draw: real)
    requires cfg.Valid() && 0.0 <= draw <= 1.0 && job.attempts == Counted(before, job.id)
    ensures HonestEntry(cfg, before, Entry(cfg, job, ladder, Routed(ladder, hedge, race), draw))
  {
    VerdictsAreEarned(ladder, hedge, race);
    DelayBounds(cfg, job.attempts, draw);
    DelayBounds(cfg, 0, draw);
    CeilingIsNatural(cfg, job.attempts);
  }

  lemma {:induction false} LogIsHonest(cfg: Config, ss: seq<Sys>, acts: seq<Action>, i: nat)
    requires cfg.Valid() && IsInterleaving(cfg, ss, acts) && i < |ss|
    ensures HonestLog(cfg, ss[i].log)
  {
    if i > 0 {
      var s, a := ss[i - 1], acts[i - 1];
      LogIsHonest(cfg, ss, acts, i - 1);
      InvAlways(cfg, ss, acts, i - 1);
      if a.Finish? && a.w in s.workers && s.workers[a.w].Routing? && 0.0 <= a.draw <= 1.0 {
        var job := s.workers[a.w].job;
        assert JobInv(cfg, s, job.id) && UpToDate(cfg, s, s.workers[a.w]);
        EntryIsHonest(cfg, s.log, job, a.ladder, a.hedge, a.race, a.draw);
        var t := ss[i];
        assert t.log[..|s.log|] == s.log;
        forall n | 0 <= n < |t.log| ensures HonestEntry(cfg, t.log[..n], t.log[n]) {
          if n < |s.log| { assert t.log[..n] == s.log[..n]; }
        }
      }
    }
  }

  /** The counted backoff scheduled for a job so far. */
  function Backoff(log: seq<Finished>, id: JobId): int {
    if log == [] then 0
    else
      var init, last := Backoff(log[..|log| - 1], id), log[|log| - 1];
      if last.id == id && last.verdict.Exhausted? then init + last.delayMs else init
  }

  /** Ceiling(0) + ... + Ceiling(n - 1), in milliseconds. */
  function CeilingSum(cfg: Config, n: nat): real {
    if n == 0 then 0.0 else CeilingSum(cfg, n - 1) + 1000.0 * Ceiling(cfg, n - 1)
  }

  function Least(a: nat, b: nat): nat { if a <= b then a else b }

  lemma {:induction false} BackoffBounded(cfg: Config, log: seq<Finished>, id: JobId)
    requires cfg.Valid() && HonestLog(cfg, log)
    ensures 0 <= Backoff(log, id)
    ensures Backoff(log, id) as real <= CeilingSum(cfg, Least(Counted(log, id), cfg.maxAttempts - 1))
  {
    if log != [] {
      var init, e := log[..|log| - 1], log[|log| - 1];
      assert HonestEntry(cfg, log[..|log| - 1], e);
      assert HonestLog(cfg, init) by {
        forall n | 0 <= n < |init| ensures HonestEntry(cfg, init[..n], init[n]) {
          assert init[..n] == log[..n];
        }
      }
      BackoffBounded(cfg, init, id);
      CeilingIsNatural(cfg, Counted(init, id));
    }
  }

  /** However the workers interleave, the backoff a job is ever made to wait for counted runs is
      at most the sum of the first max_attempts - 1 ceilings, and deferrals add nothing to it. */
  lemma TotalBackoffBound(cfg: Config, ss: seq<Sys>, acts: seq<Action>, i: nat, id: JobId)
    requires cfg.Valid() && IsInterleaving(cfg, ss, acts) && i < |ss|
    ensures Backoff(ss[i].log, id) as real <= CeilingSum(cfg, cfg.maxAttempts - 1)
  {
    LogIsHonest(cfg, ss, acts, i);
    BackoffBounded(cfg, ss[i].log, id);
    CeilingSumGrows(cfg, Least(Counted(ss[i].log, id), cfg.maxAttempts - 1), cfg.maxAttempts - 1);
  }

  lemma {:induction false} CeilingSumGrows(cfg: Config, m: nat, n: nat)
    requires cfg.Valid() && m <= n
    ensures CeilingSum(cfg, m) <= CeilingSum(cfg, n)
  {
    if m < n {
      CeilingSumGrows(cfg, m, n - 1);
      CeilingIsNatural(cfg, n - 1);
    }
  }

  // ---------------------------------------------------------------- when a job is due

  function LastRun(log: seq<Finished>, id: JobId): Option<Finished> {
    if log == [] then None
    else if log[|log| - 1].id == id then Some(log[|log| - 1])
    else LastRun(log[..|log| - 1], id)
  }

  lemma LastRunAppend(log: seq<Finished>, e: Finished, id: JobId)
    ensures LastRun(log + [e], id) == if e.id == id then Some(e) else LastRun(log, id)
  {
    assert (log + [e])[..|log|] == log;
  }

  lemma {:induction false} LastRunIsHonest(cfg: Config, log: seq<Finished>, id: JobId)
    requires HonestLog(cfg, log) && LastRun(log, id).Some?
    ensures var e := LastRun(log, id).value;
            && (e.verdict.Deferred? ==> WithinCeiling(cfg, e.delayMs, 0) && Jittered(cfg, e.delayMs, e.draw, 0))
            && (e.verdict.Exhausted? ==> Counted(log, id) > 0 && WithinCeiling(cfg, e.delayMs, Counted(log, id) - 1))
            && (e.verdict.Exhausted? && Counted(log, id) < cfg.maxAttempts ==>
                  Jittered(cfg, e.delayMs, e.draw, Counted(log, id) - 1))
  {
    var init, last := log[..|log| - 1], log[|log| - 1];
    assert HonestEntry(cfg, init, last);
    if last.id != id {
      forall n | 0 <= n < |init| ensures HonestEntry(cfg, init[..n], init[n]) {
        assert init[..n] == log[..n] && HonestEntry(cfg, log[..n], log[n]);
      }
      LastRunIsHonest(cfg, init, id);
    }
  }

  /** This due time is the one the job's last run set when it wrote the hash, or, if the job has
      not run yet, that of its submission. */
  ghost predicate Scored(sys: Sys, id: JobId, dueMs: int) {
    id in sys.store.jobs && sys.store.jobs[id].Full? ==>
      var since := sys.store.jobs[id].job.updatedAtMs;
      match LastRun(sys.log, id)
      case None => dueMs == since == sys.store.jobs[id].job.createdAtMs
      case Some(e) => dueMs == since + e.delayMs && (e.verdict.Deferred? || e.verdict.Exhausted?)
  }

  /** What a busy worker has in hand agrees with the log. */
  ghost predicate TimedBy(cfg: Config, sys: Sys, pc: Pc) {
    match pc
    case Popped(id, scoreMs, _) => Scored(sys, id, scoreMs)
    case Writing(job, v, draw, nowMs) =>
      var last, index := LastRun(sys.log, job.id), IndexFor(cfg, job, v, draw, nowMs);
      && last.Some? && last.value.verdict == v
      && (index.ToReady? ==> index.readyAtMs == nowMs + last.value.delayMs)
    case Placing(id, index, nowMs) =>
      id in sys.store.jobs ==>
        && sys.store.jobs[id].Full? && sys.store.jobs[id].job.updatedAtMs == nowMs
        && (index.ToReady? ==> Scored(sys, id, index.readyAtMs))
    case _ => true
  }

  ghost predicate Timed(cfg: Config, sys: Sys, id: JobId) {
    && (id in sys.store.ready ==> Scored(sys, id, sys.store.ready[id]))
    && (forall w :: w in sys.workers && Subject(sys.workers[w]) == id ==> TimedBy(cfg, sys, sys.workers[w]))
    && (id !in sys.issued ==> LastRun(sys.log, id) == None)
  }

  /** Nothing about when this job is due differs between the two states. */
  ghost predicate SameTimes(s: Sys, t: Sys, id: JobId) {
    && SameFor(s, t, id)
    && (id in s.store.ready ==> s.store.ready[id] == t.store.ready[id])
    && LastRun(s.log, id) == LastRun(t.log, id)
    && (id in s.issued ==> id in t.issued)
  }

  lemma TimesStay(cfg: Config, s: Sys, t: Sys, id: JobId)
    requires Timed(cfg, s, id) && SameTimes(s, t, id)
    ensures Timed(cfg, t, id)
  {
    forall w | w in t.workers && Subject(t.workers[w]) == id ensures TimedBy(cfg, t, t.workers[w]) {
      assert TimedBy(cfg, s, s.workers[w]);
    }
  }

  lemma AdvanceTimesOwn(cfg: Config, s: Sys, w: nat)
    requires Inv(cfg, s) && w in s.workers && !s.workers[w].Routing? && Timed(cfg, s, Subject(s.workers[w]))
    requires !UpdatesExpired(s, Advance(w))
    ensures Timed(cfg, Next(cfg, s, Advance(w)), Subject(s.workers[w]))
  {
    var t := Next(cfg, s, Advance(w));
    var pc := s.workers[w];
    var id := Subject(pc);
    assert JobInv(cfg, s, id) && UpToDate(cfg, s, pc) && TimedBy(cfg, s, pc);
    forall v | v in t.workers && Subject(t.workers[v]) == id ensures TimedBy(cfg, t, t.workers[v]) {
      assert v == w;
    }
  }

  lemma AdvanceTimesOthers(cfg: Config, s: Sys, w: nat, other: JobId)
    requires Inv(cfg, s) && w in s.workers && !s.workers[w].Routing? && other != Subject(s.workers[w])
    requires Timed(cfg, s, other)
    ensures Timed(cfg, Next(cfg, s, Advance(w)), other)
  {
    var pc := s.workers[w];
    assert JobInv(cfg, s, Subject(pc)) && UpToDate(cfg, s, pc);
    if Command(cfg, s.store, pc).1.Some? { CommandKeepsSubject(cfg, s.store, pc); }
    CommandFrames(cfg, s.store, pc, other);
    TimesStay(cfg, s, Next(cfg, s, Advance(w)), other);
  }

  lemma {:induction false} FinishTimes(cfg: Config, s: Sys, a: Action, id: JobId)
    requires Inv(cfg, s) && a.Finish? && a.w in s.workers && s.workers[a.w].Routing? && 0.0 <= a.draw <= 1.0
    requires Timed(cfg, s, id)
    ensures Timed(cfg, Next(cfg, s, a), id)
  {
    var t := Next(cfg, s, a);
    var job := s.workers[a.w].job;
    var e := Entry(cfg, job, a.ladder, Routed(a.ladder, a.hedge, a.race), a.draw);
    LastRunAppend(s.log, e, id);
    CountedAppend(s.log, e, id);
    if id != job.id {
      TimesStay(cfg, s, t, id);
    } else {
      forall v | v in t.workers && Subject(t.workers[v]) == id ensures TimedBy(cfg, t, t.workers[v]) {
        assert v == a.w;
      }
    }
  }

  lemma NextTimes(cfg: Config, s: Sys, a: Action, id: JobId)
    requires Inv(cfg, s) && !UpdatesExpired(s, a) && Timed(cfg, s, id)
    ensures Timed(cfg, Next(cfg, s, a), id)
  {
    var t := Next(cfg, s, a);
    match a
    case Advance(w) =>
      if w in s.workers && !s.workers[w].Routing? {
        if id == Subject(s.workers[w]) { AdvanceTimesOwn(cfg, s, w); } else { AdvanceTimesOthers(cfg, s, w, id); }
      }
    case Finish(w, _, _, _, draw, _) =>
      if w in s.workers && s.workers[w].Routing? && 0.0 <= draw <= 1.0 { FinishTimes(cfg, s, a, id); }
    case Claim(w, id', nowMs) => ClaimTimes(cfg, s, w, id', nowMs, id);
    case _ => if t != s { QuietTimes(cfg, s, a, id); }
  }

  lemma ClaimTimes(cfg: Config, s: Sys, w: nat, claimed: JobId, nowMs: int, id: JobId)
    requires Timed(cfg, s, id)
    ensures Timed(cfg, Next(cfg, s, Claim(w, claimed, nowMs)), id)
  {
    var t := Next(cfg, s, Claim(w, claimed, nowMs));
    forall v | v in t.workers && Subject(t.workers[v]) == id ensures TimedBy(cfg, t, t.workers[v]) {
      if v in s.workers { assert TimedBy(cfg, s, s.workers[v]); }
    }
  }

  lemma QuietTimes(cfg: Config, s: Sys, a: Action, id: JobId)
    requires Inv(cfg, s) && (a.Submit? || a.Crash? || a.Expire?)
    requires Timed(cfg, s, id)
    ensures Timed(cfg, Next(cfg, s, a), id)
  {
    var t := Next(cfg, s, a);
    forall v | v in t.workers && Subject(t.workers[v]) == id ensures TimedBy(cfg, t, t.workers[v]) {
      assert v in s.workers && TimedBy(cfg, s, s.workers[v]) && t.workers[v] == s.workers[v];
      assert t.log == s.log;
    }
  }

  lemma {:induction false} TimedAlways(cfg: Config, ss: seq<Sys>, acts: seq<Action>, i: nat, id: JobId)
    requires cfg.Valid() && IsInterleaving(cfg, ss, acts) && i < |ss|
    ensures Timed(cfg, ss[i], id)
  {
    if i > 0 {
      TimedAlways(cfg, ss, acts, i - 1, id);
      InvAlways(cfg, ss, acts, i - 1);
      NextTimes(cfg, ss[i - 1], acts[i - 1], id);
    }
  }

  /** The due time this job stands under: its score while it is ready, the score a worker has
      popped, or the one a worker is about to write. */
  ghost predicate StandsUnder(s: Sys, id: JobId, dueMs: int) {
    || (id in s.store.ready && s.store.ready[id] == dueMs)
    || (exists w :: w in s.workers && IsTimed(s.workers[w], id, dueMs))
  }

  predicate IsTimed(pc: Pc, id: JobId, dueMs: int) {
    match pc
    case Popped(popped, scoreMs, _) => popped == id && scoreMs == dueMs
    case Placing(placed, index, _) => placed == id && index == ToReady(dueMs)
    case _ => false
  }

  /** When a job is due. In every interleaving, a job that has not run is due when it was submitted;
      one whose last run was a deferral is due within min(base, cap) of that run, however many
      attempts it has behind it; and one whose last run was its k-th counted one, within the ceiling
      of attempt k - 1, each time at the part of that ceiling the run drew. The stored attempts are
      that k. */
  lemma DueWithinTheCeiling(cfg: Config, ss: seq<Sys>, acts: seq<Action>, i: nat, id: JobId, dueMs: int)
    requires cfg.Valid() && IsInterleaving(cfg, ss, acts) && i < |ss|
    requires id in ss[i].store.jobs && StandsUnder(ss[i], id, dueMs)
    ensures ss[i].store.jobs[id].Full?
    ensures var job := ss[i].store.jobs[id].job;
            var waitMs := dueMs - job.updatedAtMs;
            && job.attempts == Counted(ss[i].log, id)
            && match LastRun(ss[i].log, id)
               case None => dueMs == job.createdAtMs
               case Some(e) =>
                 && waitMs == e.delayMs >= 0
                 && match e.verdict
                    case Deferred =>
                      && waitMs as real <= 1000.0 * Smaller(cfg.baseDelayS, cfg.maxDelayS)
                      && Jittered(cfg, waitMs, e.draw, 0)
                    case Exhausted(_) =>
                      && job.attempts > 0 && waitMs as real <= 1000.0 * Ceiling(cfg, job.attempts - 1)
                      && Jittered(cfg, waitMs, e.draw, job.attempts - 1)
                    case _ => false
  {
    var s := ss[i];
    InvAlways(cfg, ss, acts, i);
    TimedAlways(cfg, ss, acts, i, id);
    LogIsHonest(cfg, ss, acts, i);
    FirstCeiling(cfg);
    HeldAndScored(cfg, s, id, dueMs);
    if LastRun(s.log, id).Some? { LastRunIsHonest(cfg, s.log, id); }
  }

  lemma HeldAndScored(cfg: Config, s: Sys, id: JobId, dueMs: int)
    requires Inv(cfg, s) && Timed(cfg, s, id) && id in s.store.jobs && StandsUnder(s, id, dueMs)
    ensures Runnable(cfg, s, id, Queued) && Scored(s, id, dueMs)
  {
    assert JobInv(cfg, s, id);
    if id !in s.store.ready || s.store.ready[id] != dueMs {
      var w :| w in s.workers && IsTimed(s.workers[w], id, dueMs);
      assert UpToDate(cfg, s, s.workers[w]) && TimedBy(cfg, s, s.workers[w]);
    } else {
      assert !Held(s, id);
    }
  }

  // ---------------------------------------------------------------- what a job says of its runs

  /** The hash tells how the job's last run ended, in its own words: its status, the answer it got or
      the reason it got none. While it runs it says nothing of the run, but keeps no answer. */
  ghost predicate Tells(last: Option<Finished>, job: Job) {
    && (job.status != Done ==> job.result == None)
    && match job.status
       case Queued =>
         (match last
          case None => job.error == NoReason
          case Some(e) =>
            || (e.verdict == Deferred && job.error == WaitingForCapacity)
            || (e.verdict.Exhausted? && job.error == From(e.verdict.last.outcome)))
       case Running => true
       case Done =>
         && last.Some? && last.value.verdict.Answered?
         && job.result == Some(last.value.verdict.call) && job.error == NoReason
       case Failed => last.Some? && last.value.verdict == Refused(job.error)
       case Dead => last.Some? && last.value.verdict.Exhausted? && job.error == From(last.value.verdict.last.outcome)
  }

  ghost predicate Told(sys: Sys, id: JobId) {
    id in sys.store.jobs && sys.store.jobs[id].Full? ==>
      && Tells(LastRun(sys.log, id), sys.store.jobs[id].job)
      && (id in sys.store.dlq ==> sys.store.dlq[id] == sys.store.jobs[id].job.updatedAtMs)
  }

  lemma WriteTells(cfg: Config, s: Store, job: Job, v: Verdict, nowMs: int, last: Finished)
    requires job.id in s.jobs && s.jobs[job.id].Full? && s.jobs[job.id].job.result == None && last.verdict == v
    ensures var hash := Written(cfg, s, job, v, nowMs).jobs[job.id];
            hash.Full? && Tells(Some(last), hash.job)
  {}

  lemma AdvanceTells(cfg: Config, s: Sys, w: nat)
    requires Inv(cfg, s) && w in s.workers && !s.workers[w].Routing? && !UpdatesExpired(s, Advance(w))
    requires Timed(cfg, s, Subject(s.workers[w])) && Told(s, Subject(s.workers[w]))
    ensures Told(Next(cfg, s, Advance(w)), Subject(s.workers[w]))
  {
    var pc := s.workers[w];
    var id := Subject(pc);
    assert JobInv(cfg, s, id) && UpToDate(cfg, s, pc) && TimedBy(cfg, s, pc);
    if pc.Writing? {
      WriteTells(cfg, s.store, pc.job, pc.verdict, pc.nowMs, LastRun(s.log, id).value);
    }
  }

  lemma OthersTell(cfg: Config, s: Sys, a: Action, id: JobId)
    requires Inv(cfg, s) && Told(s, id) && Timed(cfg, s, id)
    requires !(a.Advance? && a.w in s.workers && Subject(s.workers[a.w]) == id)
    ensures Told(Next(cfg, s, a), id)
  {
    assert JobInv(cfg, s, id);
    if a.Advance? && a.w in s.workers && !s.workers[a.w].Routing? {
      CommandFrames(cfg, s.store, s.workers[a.w], id);
    } else if a.Finish? && a.w in s.workers && s.workers[a.w].Routing? && 0.0 <= a.draw <= 1.0 {
      var job := s.workers[a.w].job;
      LastRunAppend(s.log, Entry(cfg, job, a.ladder, Routed(a.ladder, a.hedge, a.race), a.draw), id);
      assert UpToDate(cfg, s, s.workers[a.w]) || job.id != id;
    }
  }

  lemma {:induction false} ToldAlways(cfg: Config, ss: seq<Sys>, acts: seq<Action>, i: nat, id: JobId)
    requires cfg.Valid() && IsInterleaving(cfg, ss, acts) && i < |ss|
    ensures Told(ss[i], id)
  {
    if i > 0 {
      var s, a := ss[i - 1], acts[i - 1];
      ToldAlways(cfg, ss, acts, i - 1, id);
      InvAlways(cfg, ss, acts, i - 1);
      TimedAlways(cfg, ss, acts, i - 1, id);
      if a.Advance? && a.w in s.workers && Subject(s.workers[a.w]) == id {
        if !s.workers[a.w].Routing? { AdvanceTells(cfg, s, a.w); }
      } else {
        OthersTell(cfg, s, a, id);
      }
    }
  }

  /** In every interleaving a job's hash tells how its last run ended: DONE with the very answer that
      run got, FAILED with the reason it was refused for, DEAD and back in the queue with the outcome
      of its last call, or waiting for capacity. A dead letter is dated when its job died. */
  lemma HashTellsTheLastRun(cfg: Config, ss: seq<Sys>, acts: seq<Action>, i: nat, id: JobId)
    requires cfg.Valid() && IsInterleaving(cfg, ss, acts) && i < |ss| && id in ss[i].store.jobs
    ensures ss[i].store.jobs[id].Full?
    ensures Tells(LastRun(ss[i].log, id), ss[i].store.jobs[id].job)
    ensures id in ss[i].store.dlq ==> ss[i].store.dlq[id] == ss[i].store.jobs[id].job.updatedAtMs
  {
    AlwaysReadable(cfg, ss, acts, i, id);
    ToldAlways(cfg, ss, acts, i, id);
  }

  // ---------------------------------------------------------------- one worker alone

  /** A tick nobody interrupts, command by command, is the tick of the sequential worker: a job that
      is not due is put back without a trace, an entry whose hash has expired is dropped, and a due
      job is marked, routed and settled. */
  lemma UninterruptedTick(cfg: Config, s: Sys, w: nat, id: JobId, popMs: int,
                          ladder: seq<Rung>, hedge: bool, race: Race, draw: real, endMs: int)
    requires w !in s.workers && IsEarliest(s.store.ready, id) && 0.0 <= draw <= 1.0
    requires id in s.store.jobs && s.store.jobs[id].Full? ==> s.store.jobs[id].job.id == id
    ensures var s1 := Next(cfg, Next(cfg, s, Claim(w, id, popMs)), Advance(w));
            var s3 := Next(cfg, Next(cfg, s1, Advance(w)), Finish(w, ladder, hedge, race, draw, endMs));
            var s4 := Next(cfg, Next(cfg, s3, Advance(w)), Advance(w));
            if s.store.ready[id] > popMs then s1 == s
            else if id !in s.store.jobs || s.store.jobs[id].Partial? then s1 == s.(store := Unindexed(s.store, id))
            else
              && s4.workers == s.workers
              && s4.store == Settled(cfg, Marked(Unindexed(s.store, id), id, popMs), s.store.jobs[id].job,
                                     Judge(ladder, Routed(ladder, hedge, race).routed), draw, endMs)
  {
    if s.store.ready[id] > popMs {
      NotDuePutsBack(cfg, s, w, id, popMs);
    } else if id !in s.store.jobs || s.store.jobs[id].Partial? {
      ExpiredIsDropped(cfg, s, w, id, popMs);
    } else {
      DueIsSettled(cfg, s, w, id, popMs, ladder, hedge, race, draw, endMs);
    }
  }

  /** Looking at a job that is not due leaves no trace. */
  lemma NotDuePutsBack(cfg: Config, s: Sys, w: nat, id: JobId, nowMs: int)
    requires w !in s.workers && IsEarliest(s.store.ready, id) && s.store.ready[id] > nowMs
    ensures Next(cfg, Next(cfg, s, Claim(w, id, nowMs)), Advance(w)) == s
  {
    var s1 := Next(cfg, s, Claim(w, id, nowMs));
    assert s1.store.ready[id := s.store.ready[id]] == s.store.ready;
    assert s1.workers - {w} == s.workers;
  }

  lemma ExpiredIsDropped(cfg: Config, s: Sys, w: nat, id: JobId, nowMs: int)
    requires w !in s.workers && IsEarliest(s.store.ready, id) && s.store.ready[id] <= nowMs
    requires id !in s.store.jobs || s.store.jobs[id].Partial?
    ensures Next(cfg, Next(cfg, s, Claim(w, id, nowMs)), Advance(w)) == s.(store := Unindexed(s.store, id))
  {
    var s1 := Next(cfg, s, Claim(w, id, nowMs));
    assert s1.workers - {w} == s.workers;
  }

  lemma DueIsSettled(cfg: Config, s: Sys, w: nat, id: JobId, popMs: int,
                     ladder: seq<Rung>, hedge: bool, race: Race, draw: real, endMs: int)
    requires w !in s.workers && IsEarliest(s.store.ready, id) && s.store.ready[id] <= popMs && 0.0 <= draw <= 1.0
    requires id in s.store.jobs && s.store.jobs[id].Full? && s.store.jobs[id].job.id == id
    ensures var s1 := Next(cfg, Next(cfg, s, Claim(w, id, popMs)), Advance(w));
            var s3 := Next(cfg, Next(cfg, s1, Advance(w)), Finish(w, ladder, hedge, race, draw, endMs));
            var s4 := Next(cfg, Next(cfg, s3, Advance(w)), Advance(w));
            && s4.workers == s.workers
            && s4.store == Settled(cfg, Marked(Unindexed(s.store, id), id, popMs), s.store.jobs[id].job,
                                   Judge(ladder, Routed(ladder, hedge, race).routed), draw, endMs)
  {
    var job := s.store.jobs[id].job;
    var a := Next(cfg, Next(cfg, s, Claim(w, id, popMs)), Advance(w));
    assert a.workers[w] == Fetched(job, popMs);
    var b := Next(cfg, a, Advance(w));
    assert b.workers[w] == Routing(job) && b.store == Marked(Unindexed(s.store, id), id, popMs);
    assert b.workers - {w} == s.workers;
    WriteAlone(cfg, Next(cfg, b, Finish(w, ladder, hedge, race, draw, endMs)), w);
  }

  lemma WriteAlone(cfg: Config, s: Sys, w: nat)
    requires w in s.workers && s.workers[w].Writing?
    ensures var pc := s.workers[w];
            var t := Next(cfg, Next(cfg, s, Advance(w)), Advance(w));
            t.workers == s.workers - {w} && t.store == Settled(cfg, s.store, pc.job, pc.verdict, pc.draw, pc.nowMs)
  {}

  // ---------------------------------------------------------------- the expiry assumption

  /** What the assumption is worth, exactly: in any run whatever, every hash stays readable if and
      only if no update finds its hash gone. */
  lemma HashesStayReadableIff(cfg: Config, ss: seq<Sys>, acts: seq<Action>)
    requires cfg.Valid() && IsRun(cfg, ss, acts)
    ensures IsInterleaving(cfg, ss, acts)
       <==> forall i, id :: 0 <= i < |ss| && id in ss[i].store.jobs ==> ss[i].store.jobs[id].Full?
  {
    if IsInterleaving(cfg, ss, acts) {
      forall i, id | 0 <= i < |ss| && id in ss[i].store.jobs ensures ss[i].store.jobs[id].Full? {
        AlwaysReadable(cfg, ss, acts, i, id);
      }
    } else {
      var i :| 0 <= i < |acts| && UpdatesExpired(ss[i], acts[i]);
      var id := Subject(ss[i].workers[acts[i].w]);
      UpdateBringsBackAPart(cfg, ss[i].store, ss[i].workers[acts[i].w]);
      assert ss[i + 1] == Next(cfg, ss[i], acts[i]);
      assert id in ss[i + 1].store.jobs && ss[i + 1].store.jobs[id].Partial?;
    }
  }

  /** Which expiries do the harm: if a job's hash runs out under a worker, then, whatever the run
      comes to, the worker's next command brings back a partial hash if and only if the worker had
      not yet written what the run came to. Before it has read the hash, and once only an index
      write is left, nothing happens. */
  lemma ExpiryHarmsIff(cfg: Config, s: Sys, w: nat, ladder: seq<Rung>, hedge: bool, race: Race, draw: real, nowMs: int)
    requires w in s.workers && 0.0 <= draw <= 1.0
    ensures var pc := s.workers[w];
            var id := Subject(pc);
            var expired := Next(cfg, s, Expire(id));
            var after := Next(cfg, Next(cfg, expired, Finish(w, ladder, hedge, race, draw, nowMs)), Advance(w));
            && (id in after.store.jobs <==> pc.Fetched? || pc.Routing? || pc.Writing?)
            && (id in after.store.jobs ==> after.store.jobs[id].Partial?)
  {
    var id := Subject(s.workers[w]);
    var expired := Next(cfg, s, Expire(id));
    var done := Next(cfg, expired, Finish(w, ladder, hedge, race, draw, nowMs));
    assert done.store == expired.store && Subject(done.workers[w]) == id;
    if IsUpdate(done.workers[w]) {
      UpdateBringsBackAPart(cfg, done.store, done.workers[w]);
    } else {
      OnlyUpdatesWrite(cfg, done.store, done.workers[w]);
    }
  }

  lemma UpdateBringsBackAPart(cfg: Config, s: Store, pc: Pc)
    requires IsUpdate(pc) && Subject(pc) !in s.jobs
    ensures var jobs := Command(cfg, s, pc).0.jobs; Subject(pc) in jobs && jobs[Subject(pc)].Partial?
  {}

  /** A ladder that has no capacity. */
  const NO_CAPACITY := [Rung(false, false, Ok)]

  const NO_RACE := Race(true, PrimaryFirst, false, false)

  lemma NoCapacityDefers()
    ensures Judge(NO_CAPACITY, Routed(NO_CAPACITY, false, NO_RACE).routed) == Deferred
  {
    assert PlainFrom(NO_CAPACITY, 1) == Walk(RouteOutcome(None, []), []);
    assert Routed(NO_CAPACITY, false, NO_RACE).routed == RouteOutcome(None, [Skipped(0)]);
    assert [Skipped(0)][..0] == [];
  }

  /** It happens, from an empty queue and under every configuration: the hash of a job expires while
      the job is routed, the deferral brings back a partial one, and the next claim drops the
      entry. The job is then neither ready nor held nor over nor abandoned. */
  lemma ExpiryWhileRoutingStrandsTheJob(cfg: Config, w: nat, id: JobId, payload: string)
    returns (ss: seq<Sys>, acts: seq<Action>)
    requires cfg.Valid()
    ensures IsRun(cfg, ss, acts)
    ensures var s := ss[|acts|];
            && id in s.issued && id in s.store.jobs && s.store.jobs[id] == Partial(Queued)
            && id !in s.store.ready && !Held(s, id) && id !in s.abandoned
  {
    var finish := Finish(w, NO_CAPACITY, false, NO_RACE, 0.0, 0);
    acts := [Submit(id, payload, 0), Claim(w, id, 0), Advance(w), Advance(w), Expire(id),
             finish, Advance(w), Advance(w), Claim(w, id, 0), Advance(w)];
    var s1 := Next(cfg, START, acts[0]);
    var s2 := Next(cfg, s1, acts[1]);
    var s3 := Next(cfg, s2, acts[2]);
    var s4 := Next(cfg, s3, acts[3]);
    var s5 := Next(cfg, s4, acts[4]);
    var job := Job(id, Queued, payload, 0, 0, 0, None, NoReason);
    assert s2.workers == map[w := Popped(id, 0, 0)] && s2.store.ready == map[];
    assert s3.workers == map[w := Fetched(job, 0)];
    assert s5.store.jobs == map[] && s5.store.ready == map[];
    assert s5.workers == map[w := Routing(job)] && s5.issued == {id} && s5.abandoned == {};
    var s6 := Next(cfg, s5, acts[5]);
    var s7 := Next(cfg, s6, acts[6]);
    var s8 := Next(cfg, s7, acts[7]);
    var s9 := Next(cfg, s8, acts[8]);
    ss := [START, s1, s2, s3, s4, s5, s6, s7, s8, s9, Next(cfg, s9, acts[9])];
    DeferralStrands(cfg, s5, w, job);
  }

  lemma DeferralStrands(cfg: Config, s: Sys, w: nat, job: Job)
    requires s.store.jobs == map[] && s.store.ready == map[] && s.workers == map[w := Routing(job)]
    ensures var finished := Next(cfg, s, Finish(w, NO_CAPACITY, false, NO_RACE, 0.0, 0));
            var placed := Next(cfg, Next(cfg, finished, Advance(w)), Advance(w));
            var t := Next(cfg, Next(cfg, placed, Claim(w, job.id, 0)), Advance(w));
            && t.store.jobs == map[job.id := Partial(Queued)] && t.store.ready == map[] && t.workers == map[]
            && t.issued == s.issued && t.abandoned == s.abandoned
  {
    NoCapacityDefers();
    var s6 := Next(cfg, s, Finish(w, NO_CAPACITY, false, NO_RACE, 0.0, 0));
    assert s6.workers == map[w := Writing(job, Deferred, 0.0, 0)];
    var s7 := Next(cfg, s6, Advance(w));
    assert s7.store.jobs == map[job.id := Partial(Queued)] && s7.workers == map[w := Placing(job.id, ToReady(0), 0)];
    var s8 := Next(cfg, s7, Advance(w));
    assert s8.store.ready == map[job.id := 0] && s8.workers == map[];
    var s9 := Next(cfg, s8, Claim(w, job.id, 0));
    assert s9.workers == map[w := Popped(job.id, 0, 0)] && s9.store.ready == map[];
  }
}
