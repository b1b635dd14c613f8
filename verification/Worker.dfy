/** What one run of a queued job costs it (gateway/worker.py). */
module Worker {
  import opened Outcomes
  import opened Router
  import opened RouterProofs
  import opened Queue

  /** What a finished run means for its job. */
  datatype Verdict = Answered(call: Call) | Refused(reason: Reason) | Deferred | Exhausted(last: Call)

  function Judge(ladder: seq<Rung>, r: RouteOutcome): Verdict {
    if ladder == [] then Refused(NoProvider)
    else if r.result.Some? && IsOk(r.result.value.outcome) then Answered(r.result.value)
    else if r.result.Some? && !IsTrippable(r.result.value.outcome) then Refused(From(r.result.value.outcome))
    else
      var last := LastFailure(r.attempts);
      if last.None? then Deferred else Exhausted(last.value)
  }

  /** The hash write that follows a verdict. */
  function Written(cfg: Config, s: Store, job: Job, v: Verdict, nowMs: int): Store {
    match v
    case Answered(call) => Completed(s, job.id, call, nowMs)
    case Refused(reason) => Rejected(s, job.id, reason, nowMs)
    case Deferred => Rescheduled(s, job, false, WaitingForCapacity, nowMs)
    case Exhausted(last) =>
      if job.attempts + 1 >= cfg.maxAttempts then Killed(s, job.id, From(last.outcome), nowMs)
      else Rescheduled(s, job, true, From(last.outcome), nowMs)
  }

  /** How long the job waits if it goes back to the queue. */
  function DelayMs(cfg: Config, job: Job, v: Verdict, draw: real): int {
    Milliseconds(RetryDelayS(cfg, if v.Deferred? then 0 else job.attempts, draw))
  }

  /** The index write that follows the hash write, if any. */
  datatype Index = NoIndex | ToReady(readyAtMs: int) | ToDlq

  function IndexFor(cfg: Config, job: Job, v: Verdict, draw: real, nowMs: int): Index {
    match v
    case Answered(_) => NoIndex
    case Refused(_) => NoIndex
    case Deferred => ToReady(nowMs + DelayMs(cfg, job, v, draw))
    case Exhausted(_) =>
      if job.attempts + 1 >= cfg.maxAttempts then ToDlq else ToReady(nowMs + DelayMs(cfg, job, v, draw))
  }

  function Placed(s: Store, id: JobId, index: Index, nowMs: int): Store {
    match index
    case NoIndex => s
    case ToReady(readyAtMs) => Indexed(s, id, readyAtMs)
    case ToDlq => Buried(s, id, nowMs)
  }

  /** The whole effect of a verdict. */
  function Settled(cfg: Config, s: Store, job: Job, v: Verdict, draw: real, nowMs: int): Store {
    Placed(Written(cfg, s, job, v, nowMs), job.id, IndexFor(cfg, job, v, draw, nowMs), nowMs)
  }

  /** Route the job and settle it. */
  method Run(q: DelayQueue, cfg: Config, job: Job, ladder: seq<Rung>, hedge: bool, race: Race, draw: real, nowMs: int)
    modifies q
    ensures q.View() == Settled(cfg, old(q.View()), job, Judge(ladder, Routed(ladder, hedge, race).routed), draw, nowMs)
  {
    if ladder == [] {
      q.Fail(job, NoProvider, nowMs);
      return;
    }
    var walk := Route(ladder, hedge, race);
    var result := walk.routed.result;
    if result.Some? && IsOk(result.value.outcome) {
      q.Complete(job, result.value, nowMs);
      return;
    }
    if result.Some? && !IsTrippable(result.value.outcome) {
      q.Fail(job, From(result.value.outcome), nowMs);
      return;
    }
    var last := LastFailure(walk.routed.attempts);
    if last.None? {
      Defer(q, cfg, job, draw, nowMs);
      return;
    }
    RetryOrBury(q, cfg, job, last.value, draw, nowMs);
  }

  /** Every circuit was open: nothing was attempted, so nothing is spent. */
  method Defer(q: DelayQueue, cfg: Config, job: Job, draw: real, nowMs: int)
    modifies q
    ensures q.View() == Settled(cfg, old(q.View()), job, Deferred, draw, nowMs)
  {
    var delayS := RetryDelayS(cfg, 0, draw);
    var _ := q.Retry(job, delayS, WaitingForCapacity, false, nowMs);
  }

  method RetryOrBury(q: DelayQueue, cfg: Config, job: Job, last: Call, draw: real, nowMs: int)
    modifies q
    ensures q.View() == Settled(cfg, old(q.View()), job, Exhausted(last), draw, nowMs)
  {
    var triesUsed := job.attempts + 1;
    if triesUsed >= cfg.maxAttempts {
      q.DeadLetter(job, From(last.outcome), nowMs);
      return;
    }
    var delayS := RetryDelayS(cfg, job.attempts, draw);
    var _ := q.Retry(job, delayS, From(last.outcome), true, nowMs);
  }

  /** One tick of a worker. */
  method RunOnce(q: DelayQueue, cfg: Config, ladder: seq<Rung>, hedge: bool, race: Race, draw: real, popMs: int,
                 endMs: int)
    returns (worked: bool, ghost id: JobId)
    modifies q
    ensures var before := old(q.View());
            if before.ready == map[] then !worked && q.View() == before
            else
              && IsEarliest(before.ready, id)
              && if before.ready[id] > popMs then !worked && q.View() == before
                 else if id in before.jobs && before.jobs[id].Full? then
                   && worked
                   && q.View() == Settled(cfg, Marked(Unindexed(before, id), id, popMs), before.jobs[id].job,
                                          Judge(ladder, Routed(ladder, hedge, race).routed), draw, endMs)
                 else !worked && q.View() == Unindexed(before, id)
  {
    var pop;
    pop, id := q.PopDue(popMs);
    if !pop.Got? {
      return false, id;
    }
    Run(q, cfg, pop.job, ladder, hedge, race, draw, endMs);
    return true, id;
  }

  // ---------------------------------------------------------------- what a verdict rests on

  /** The verdict and the calls made agree: an answer or a refusal by a provider ended the walk,
      a deferral dialled nothing at all, and an exhausted run dialled someone, got nothing but
      trippable failures, and reports one of them. */
  lemma VerdictsAreEarned(ladder: seq<Rung>, hedge: bool, race: Race)
    ensures var w := Routed(ladder, hedge, race);
            match Judge(ladder, w.routed)
            case Answered(call) => w.routed.result == Some(call) && IsOk(call.outcome)
            case Refused(NoProvider) => ladder == [] && w.dialled == []
            case Refused(From(o)) => w.routed.result.Some? && w.routed.result.value.outcome == o
                && KindOf(o) == CallerFault
            case Refused(_) => false
            case Deferred => ladder != [] && w.dialled == []
            case Exhausted(last) =>
              && w.routed.result.None? && w.dialled != []
              && LastFailure(w.routed.attempts) == Some(last)
              && AllProviderFaults(w.routed.attempts)
              && KindOf(last.outcome) == ProviderFault
  {
    var w := Routed(ladder, hedge, race);
    ResultIsFinal(ladder, hedge, race);
    DialsIncrease(ladder, hedge, race);
    if w.routed.result.None? {
      ExhaustionIsHonest(ladder, hedge, race);
      LastFailureIsLastCall(w.routed.attempts);
    }
  }

  lemma {:induction false} CallerFaultEndsPlainWalk(ladder: seq<Rung>, i: nat, k: nat)
    requires k in PlainFrom(ladder, i).dialled && k < |ladder| && KindOf(ladder[k].outcome) == CallerFault
    ensures var w := PlainFrom(ladder, i);
            w.dialled[|w.dialled| - 1] == k && w.routed.result == Some(Call(k, ladder[k].outcome))
    decreases |ladder| - i
  {
    if i < |ladder| && !Settles(ladder[i]) {
      CallerFaultEndsPlainWalk(ladder, i + 1, k);
    }
  }

  /** One flag, decided alike everywhere: a caller fault ends the walk at that very dial, fails the
      job in the same tick, and puts it in neither index. (That it cannot sway a circuit either is
      BreakerErasure.CallerFaultErasure.) */
  lemma OneFlagThreeDecisions(cfg: Config, s: Store, job: Job, ladder: seq<Rung>, race: Race, k: nat, draw: real,
                              nowMs: int)
    requires k in Routed(ladder, false, race).dialled && k < |ladder| && KindOf(ladder[k].outcome) == CallerFault
    requires job.id in s.jobs && s.jobs[job.id].Full?
    ensures var w := Routed(ladder, false, race);
            var v := Judge(ladder, w.routed);
            var after := Settled(cfg, s, job, v, draw, nowMs);
            && w.dialled[|w.dialled| - 1] == k
            && v == Refused(From(ladder[k].outcome))
            && after.jobs[job.id].Full? && after.jobs[job.id].job.status == Failed
            && after.ready == s.ready && after.dlq == s.dlq
  {
    CallerFaultEndsPlainWalk(ladder, 0, k);
  }
}
