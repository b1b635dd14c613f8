/** What atomicity is worth to the breaker: exactly which requests in flight can end an outage
    before its cooldown does, that such requests really occur, and what of the recovery rule
    survives every interleaving all the same. */
module BreakerHazards {
  import opened Outcomes
  import opened Health
  import opened Percentiles
  import opened Breaker
  import opened BreakerRuns
  import opened BreakerInterleaving

  // ---------------------------------------------------------------- who can end an outage early

  /** Hash g still records the outage that open hash h records. */
  predicate SameOutage(cfg: Config, h: Hash, g: Hash) {
    StateIn(g) == Open && g.openedAtMs == h.openedAtMs && CooldownIn(cfg, g) == CooldownIn(cfg, h)
  }

  predicate HarmlessWrite(cfg: Config, h: Hash, pc: Pc) {
    pc.WritingProbes? || (pc.Writing? && SameOutage(cfg, h, pc.hash))
  }

  /** A request that cannot disturb the outage h records: it has yet to read, with a clock inside
      the cooldown, or what it has left to write says nothing about the outage. */
  predicate Harmless(cfg: Config, h: Hash, pc: Pc) {
    match pc
    case Reading(_, nowMs) => !Due(cfg, h, nowMs)
    case EnteringHalfOpen(_, _, _) => false
    case DroppingWindow(task, cooldownS, nowMs) =>
      var next := AfterRead(cfg, task, Circuit(HalfOpen, None, cooldownS, 0, 0.0), nowMs);
      next.Some? ==> HarmlessWrite(cfg, h, next.value)
    case Judging(nowMs) => SameOutage(cfg, h, OpenHash(nowMs, cfg.cooldownS))
    case Writing(_) => HarmlessWrite(cfg, h, pc)
    case WritingProbes(_) => true
  }

  /** Being harmless is exact. A request's next two commands leave the outage as it is if and only
      if it is harmless, or is about to judge a window that does not trip. */
  lemma HarmlessIff(cfg: Config, sys: Sys, pid: nat)
    requires pid in sys.procs && StateIn(sys.store.hash) == Open
    ensures var h, pc := sys.store.hash, sys.procs[pid];
            var once := Next(cfg, sys, Advance(pid));
            var twice := Next(cfg, once, Advance(pid));
            SameOutage(cfg, h, once.store.hash) && SameOutage(cfg, h, twice.store.hash)
            <==> Harmless(cfg, h, pc) || (pc.Judging? && !Trips(cfg, sys.store.window, pc.nowMs))
  {}

  lemma HarmlessStep(cfg: Config, h: Hash, s: Store, pc: Pc)
    requires StateIn(h) == Open && SameOutage(cfg, h, s.hash) && Harmless(cfg, h, pc)
    ensures var (s', pc') := Command(cfg, s, pc);
            SameOutage(cfg, h, s'.hash) && (pc'.Some? ==> Harmless(cfg, h, pc'.value))
  {}

  /** The clock an arriving request reads. */
  predicate ArrivesInside(cfg: Config, h: Hash, a: Action) {
    a.BeginObserve? || a.BeginPeek? ==> !Due(cfg, h, a.nowMs)
  }

  /** The run sits out one outage from index i to index k: everybody who arrives meanwhile reads a
      clock inside the cooldown. */
  ghost predicate OutageLasts(cfg: Config, ss: seq<Sys>, acts: seq<Action>, i: nat, k: nat) {
    && i <= k < |ss| && k <= |acts| && StateIn(ss[i].store.hash) == Open
    && (forall m :: i <= m <= k ==> SameOutage(cfg, ss[i].store.hash, ss[m].store.hash))
    && (forall m :: i <= m < k ==> ArrivesInside(cfg, ss[i].store.hash, acts[m]))
  }

  /** The request was in flight at index i, has been ever since, and could do harm from the start. */
  ghost predicate Stale(cfg: Config, ss: seq<Sys>, i: nat, k: nat, pid: nat) {
    && i <= k < |ss|
    && (forall m :: i <= m <= k ==> pid in ss[m].procs)
    && !Harmless(cfg, ss[i].store.hash, ss[i].procs[pid])
  }

  lemma {:induction false} HarmlessOrStale(cfg: Config, ss: seq<Sys>, acts: seq<Action>, i: nat, k: nat, pid: nat)
    requires IsInterleaving(cfg, ss, acts) && OutageLasts(cfg, ss, acts, i, k) && pid in ss[k].procs
    ensures Harmless(cfg, ss[i].store.hash, ss[k].procs[pid]) || Stale(cfg, ss, i, k, pid)
  {
    if i < k {
      var h, s, a := ss[i].store.hash, ss[k - 1], acts[k - 1];
      assert SameOutage(cfg, h, s.store.hash) && ArrivesInside(cfg, h, a);
      if pid in s.procs {
        HarmlessOrStale(cfg, ss, acts, i, k - 1, pid);
        if a == Advance(pid) && Harmless(cfg, h, s.procs[pid]) {
          HarmlessStep(cfg, h, s.store, s.procs[pid]);
        }
      }
    }
  }

  /** Whoever ends an outage before its cooldown is over is a request that was in flight when the
      outage was first seen, has been since, and was not harmless then. No request that arrives
      later can, whatever it records and however the commands interleave. */
  lemma OnlyStaleRequestsCutTheCooldown(cfg: Config, ss: seq<Sys>, acts: seq<Action>, i: nat, k: nat)
    requires IsInterleaving(cfg, ss, acts) && OutageLasts(cfg, ss, acts, i, k) && k < |acts|
    requires !SameOutage(cfg, ss[i].store.hash, ss[k + 1].store.hash)
    ensures acts[k].Advance? && Stale(cfg, ss, i, k, acts[k].pid)
  {
    var h, s, a := ss[i].store.hash, ss[k], acts[k];
    assert SameOutage(cfg, h, s.store.hash);
    assert ss[k + 1] == Next(cfg, s, a);
    if a.Advance? && a.pid in s.procs {
      HarmlessOrStale(cfg, ss, acts, i, k, a.pid);
      if Harmless(cfg, h, s.procs[a.pid]) {
        HarmlessStep(cfg, h, s.store, s.procs[a.pid]);
      }
    }
  }

  /** Quarantine under every interleaving: if everything in flight is harmless, the outage keeps
      its opening time and its cooldown, and admits nobody inside it, whatever arrives meanwhile. */
  lemma {:induction false} CooldownSurvives(cfg: Config, ss: seq<Sys>, acts: seq<Action>, i: nat, k: nat)
    requires IsInterleaving(cfg, ss, acts) && i <= k < |ss| && StateIn(ss[i].store.hash) == Open
    requires forall pid :: pid in ss[i].procs ==> Harmless(cfg, ss[i].store.hash, ss[i].procs[pid])
    requires forall m :: i <= m < k ==> ArrivesInside(cfg, ss[i].store.hash, acts[m])
    ensures OutageLasts(cfg, ss, acts, i, k)
    ensures forall draw, nowMs :: !Due(cfg, ss[i].store.hash, nowMs) ==> !Admits(cfg, ss[k].store.hash, draw, nowMs)
  {
    if i < k {
      CooldownSurvives(cfg, ss, acts, i, k - 1);
      if !SameOutage(cfg, ss[i].store.hash, ss[k].store.hash) {
        OnlyStaleRequestsCutTheCooldown(cfg, ss, acts, i, k - 1);
        assert false;
      }
    }
  }

  // ---------------------------------------------------------------- what survives of recovery

  /** The request has been in flight since it recorded an ok call at action j. */
  ghost predicate OkSince(ss: seq<Sys>, acts: seq<Action>, j: nat, i: nat, pid: nat) {
    && j < i < |ss| && i <= |acts|
    && acts[j].BeginObserve? && acts[j].pid == pid && IsOk(acts[j].outcome)
    && pid !in ss[j].procs
    && forall m :: j < m <= i ==> pid in ss[m].procs
  }

  /** At action m the request saw a half-open circuit one success short of closing: it read one, or
      made it half-open itself when a single success is enough. */
  ghost predicate SawOneShort(cfg: Config, s: Sys, a: Action, pid: nat) {
    && a == Advance(pid) && pid in s.procs
    && match s.procs[pid]
       case Reading(_, _) =>
         StateIn(s.store.hash) == HalfOpen && ProbesIn(s.store.hash) == cfg.probeSuccessesRequired - 1
       case EnteringHalfOpen(_, _, _) => cfg.probeSuccessesRequired == 1
       case _ => false
  }

  predicate Folds(pc: Pc, outcome: Outcome) {
    (pc.Reading? || pc.EnteringHalfOpen? || pc.DroppingWindow?) && pc.task == Fold(outcome)
  }

  lemma {:induction false} BegunBy(cfg: Config, ss: seq<Sys>, acts: seq<Action>, i: nat, pid: nat, outcome: Outcome)
    returns (j: nat)
    requires IsInterleaving(cfg, ss, acts) && i < |ss| && pid in ss[i].procs && Folds(ss[i].procs[pid], outcome)
    requires IsOk(outcome)
    ensures OkSince(ss, acts, j, i, pid)
  {
    var s, a := ss[i - 1], acts[i - 1];
    if pid in s.procs {
      j := BegunBy(cfg, ss, acts, i - 1, pid, outcome);
    } else {
      j := i - 1;
    }
  }

  lemma {:induction false} EnteredBy(cfg: Config, ss: seq<Sys>, acts: seq<Action>, i: nat, pid: nat) returns (m: nat)
    requires IsInterleaving(cfg, ss, acts) && i < |ss| && pid in ss[i].procs && ss[i].procs[pid].DroppingWindow?
    ensures m < i && acts[m] == Advance(pid) && pid in ss[m].procs && ss[m].procs[pid].EnteringHalfOpen?
    ensures forall n :: m <= n <= i ==> pid in ss[n].procs
  {
    var s, a := ss[i - 1], acts[i - 1];
    if a == Advance(pid) {
      m := i - 1;
    } else {
      m := EnteredBy(cfg, ss, acts, i - 1, pid);
    }
  }

  /** Where the intent to write CLOSED comes from. */
  lemma {:induction false} CloseIsEarned(cfg: Config, ss: seq<Sys>, acts: seq<Action>, i: nat, pid: nat)
    returns (j: nat, m: nat)
    requires cfg.Valid() && IsInterleaving(cfg, ss, acts) && i < |ss|
    requires pid in ss[i].procs && ss[i].procs[pid].Writing? && StateIn(ss[i].procs[pid].hash) == Closed
    ensures OkSince(ss, acts, j, i, pid)
    ensures j < m < i && SawOneShort(cfg, ss[m], acts[m], pid)
  {
    var s, a := ss[i - 1], acts[i - 1];
    if a != Advance(pid) {
      j, m := CloseIsEarned(cfg, ss, acts, i - 1, pid);
    } else {
      CircuitStaysWellFormed(cfg, ss, acts, i - 1);
      var outcome := s.procs[pid].task.outcome;
      assert IsOk(outcome);
      j := BegunBy(cfg, ss, acts, i - 1, pid, outcome);
      if s.procs[pid].Reading? {
        m := i - 1;
      } else {
        m := EnteredBy(cfg, ss, acts, i - 1, pid);
        assert j < m;
      }
    }
  }

  /** What is left of the recovery certificate under every interleaving: a circuit is only ever
      closed by a request that recorded an ok call and afterwards saw the circuit half-open and one
      success short of closing. */
  lemma ClosedOnlyByAProbe(cfg: Config, ss: seq<Sys>, acts: seq<Action>, i: nat) returns (pid: nat, j: nat, m: nat)
    requires cfg.Valid() && IsInterleaving(cfg, ss, acts) && i < |acts|
    requires StateIn(ss[i].store.hash) != Closed && StateIn(ss[i + 1].store.hash) == Closed
    ensures acts[i] == Advance(pid) && OkSince(ss, acts, j, i, pid)
    ensures j < m < i && SawOneShort(cfg, ss[m], acts[m], pid)
  {
    pid := acts[i].pid;
    j, m := CloseIsEarned(cfg, ss, acts, i, pid);
  }

  // ---------------------------------------------------------------- the hazards occur

  ghost predicate Reachable(cfg: Config, sys: Sys) {
    exists ss, acts :: IsInterleaving(cfg, ss, acts) && ss[|acts|] == sys
  }

  lemma StartIsReachable(cfg: Config)
    ensures Reachable(cfg, START)
  {
    assert IsInterleaving(cfg, [START], []);
  }

  lemma NextIsReachable(cfg: Config, sys: Sys, a: Action)
    requires Reachable(cfg, sys)
    ensures Reachable(cfg, Next(cfg, sys, a))
  {
    var ss, acts :| IsInterleaving(cfg, ss, acts) && ss[|acts|] == sys;
    var ss', acts' := ss + [Next(cfg, sys, a)], acts + [a];
    assert IsInterleaving(cfg, ss', acts');
    assert ss'[|acts'|] == Next(cfg, sys, a);
  }

  lemma {:induction false} AdvancesAreReachable(cfg: Config, sys: Sys, pid: nat, n: nat)
    requires Reachable(cfg, sys)
    ensures Reachable(cfg, Advances(cfg, sys, pid, n))
    decreases n
  {
    if n > 0 {
      NextIsReachable(cfg, sys, Advance(pid));
      AdvancesAreReachable(cfg, Next(cfg, sys, Advance(pid)), pid, n - 1);
    }
  }

  /** One request records a call, with nobody else about. */
  lemma ObserveIsReachable(cfg: Config, s: Store, outcome: Outcome, latencyMs: real, nowMs: int)
    requires Reachable(cfg, Sys(s, map[]))
    ensures Reachable(cfg, Sys(Observed(cfg, s, outcome, latencyMs, nowMs, nowMs), map[]))
  {
    var sys := Sys(s, map[]);
    var a := BeginObserve(0, outcome, latencyMs, nowMs, nowMs);
    NextIsReachable(cfg, sys, a);
    AdvancesAreReachable(cfg, Next(cfg, sys, a), 0, 5);
    UninterruptedObserve(cfg, sys, 0, outcome, latencyMs, nowMs, nowMs);
  }

  /** A failure too slow for any budget. */
  function Slow(cfg: Config): Sample {
    Sample(0, Timeout, cfg.latencyBudgetMs + 1.0)
  }

  /** Nothing but n of these. */
  ghost predicate OnlySlow(cfg: Config, samples: seq<Sample>, n: nat) {
    |samples| == n && forall k :: 0 <= k < n ==> samples[k] == Slow(cfg)
  }

  lemma {:induction false} SlowCounts(cfg: Config, samples: seq<Sample>, n: nat)
    requires OnlySlow(cfg, samples, n)
    ensures Count(samples, ProviderFault) == n && Count(samples, Success) == 0
    ensures |HealthLatencies(samples)| == n
    ensures forall x :: x in HealthLatencies(samples) ==> x == Slow(cfg).latencyMs
  {
    if n > 0 { SlowCounts(cfg, samples[..n - 1], n - 1); }
  }

  lemma {:induction false} NewerAll(samples: seq<Sample>, cutoffMs: int)
    requires forall k :: 0 <= k < |samples| ==> samples[k].atMs > cutoffMs
    ensures Newer(samples, cutoffMs) == samples
  {
    if samples != [] { NewerAll(samples[..|samples| - 1], cutoffMs); }
  }

  /** The window n slow failures leave behind trips any circuit that asks for no more than n. */
  ghost predicate SlowWindow(cfg: Config, w: Window, n: nat) {
    OnlySlow(cfg, w.members, n) && (n > 0 ==> w.expiresAtMs == 2 * cfg.windowS * 1000)
  }

  lemma OneMoreSlow(cfg: Config, samples: seq<Sample>, n: nat)
    requires cfg.Valid() && OnlySlow(cfg, samples, n)
    ensures Newer(samples + [Slow(cfg)], -cfg.windowS * 1000) == samples + [Slow(cfg)]
    ensures OnlySlow(cfg, samples + [Slow(cfg)], n + 1)
  {
    NewerAll(samples + [Slow(cfg)], -cfg.windowS * 1000);
  }

  lemma SlowWindowGrows(cfg: Config, w: Window, n: nat)
    requires cfg.Valid() && SlowWindow(cfg, w, n)
    ensures SlowWindow(cfg, Recorded(w, Slow(cfg), cfg.windowS), n + 1)
  {
    assert Live(w, 0) == w.members;
    OneMoreSlow(cfg, w.members, n);
  }

  lemma SlowIsSick(cfg: Config, samples: seq<Sample>, n: nat)
    requires cfg.Valid() && OnlySlow(cfg, samples, n) && n >= cfg.minSamples
    ensures Sick(cfg, samples)
  {
    SlowCounts(cfg, samples, n);
    PercentilesOrdered(HealthLatencies(samples));
  }

  lemma SlowWindowTrips(cfg: Config, w: Window, n: nat)
    requires cfg.Valid() && SlowWindow(cfg, w, n) && n >= cfg.minSamples
    ensures Trips(cfg, w, 0)
  {
    NewerAll(w.members, -cfg.windowS * 1000);
    assert Visible(w, cfg.windowS, 0) == w.members;
    SlowIsSick(cfg, w.members, n);
    TripsIff(cfg, w, 0);
  }

  /** After n slow failures the circuit is open, or has seen them all and n is too few. */
  lemma {:induction false} AfterSlowFailures(cfg: Config, n: nat) returns (s: Store)
    requires cfg.Valid()
    ensures Reachable(cfg, Sys(s, map[]))
    ensures || s.hash == OpenHash(0, cfg.cooldownS)
            || (s.hash == NO_HASH && SlowWindow(cfg, s.window, n) && n < cfg.minSamples)
  {
    if n == 0 {
      StartIsReachable(cfg);
      s := FRESH;
    } else {
      s := AfterSlowFailures(cfg, n - 1);
      if s.hash == NO_HASH {
        ObserveIsReachable(cfg, s, Timeout, Slow(cfg).latencyMs, 0);
        SlowWindowGrows(cfg, s.window, n - 1);
        var w := Recorded(s.window, Slow(cfg), cfg.windowS);
        if n >= cfg.minSamples { SlowWindowTrips(cfg, w, n); }
        s := Observed(cfg, s, Timeout, Slow(cfg).latencyMs, 0, 0);
      }
    }
  }

  /** The first millisecond at which the first cooldown is certainly over. */
  function Over(cfg: Config): int {
    (cfg.cooldownS * 1000.0).Floor + 1
  }

  lemma DueIsReachable(cfg: Config) returns (s: Store)
    requires cfg.Valid()
    ensures Reachable(cfg, Sys(s, map[]))
    ensures s.hash == OpenHash(0, cfg.cooldownS) && Due(cfg, s.hash, Over(cfg))
  {
    s := AfterSlowFailures(cfg, cfg.minSamples);
    var ms := cfg.cooldownS * 1000.0;
    assert Over(cfg) as real >= ms;
    assert Seconds(Over(cfg)) >= ms / 1000.0;
  }

  /** A half-open circuit that k probes have answered. */
  lemma {:induction false} HalfOpenIsReachable(cfg: Config, k: nat) returns (s: Store)
    requires cfg.Valid() && k < cfg.probeSuccessesRequired
    ensures Reachable(cfg, Sys(s, map[]))
    ensures s.hash == HalfOpenHash(cfg.cooldownS).(probeSuccesses := Some(k))
  {
    if k == 0 {
      s := DueIsReachable(cfg);
      var sys := Sys(s, map[]);
      var begun := Next(cfg, sys, BeginPeek(0, Over(cfg)));
      NextIsReachable(cfg, sys, BeginPeek(0, Over(cfg)));
      var one := Next(cfg, begun, Advance(0));
      NextIsReachable(cfg, begun, Advance(0));
      var two := Next(cfg, one, Advance(0));
      NextIsReachable(cfg, one, Advance(0));
      var three := Next(cfg, two, Advance(0));
      NextIsReachable(cfg, two, Advance(0));
      assert three.procs == map[];
      s := three.store;
      assert three == Sys(s, map[]);
    } else {
      s := HalfOpenIsReachable(cfg, k - 1);
      ObserveIsReachable(cfg, s, Ok, 0.0, Over(cfg));
      s := Observed(cfg, s, Ok, 0.0, Over(cfg), Over(cfg));
    }
  }

  /** A stale success. Under every configuration two requests can leave the circuit just opened by
      a failed probe, its cooldown doubled, with a close still to be written: the other request saw
      the circuit half-open and one success short before the failure. Its next command closes it,
      with no time having passed. */
  lemma StaleProbeSkipsTheCooldown(cfg: Config, p: nat, q: nat) returns (sys: Sys)
    requires cfg.Valid() && p != q
    ensures Reachable(cfg, sys)
    ensures sys.store.hash == OpenHash(Over(cfg), Doubled(cfg, cfg.cooldownS))
    ensures Next(cfg, sys, Advance(p)).store.hash == ClosedHash(cfg)
  {
    var now := Over(cfg);
    var s := HalfOpenIsReachable(cfg, cfg.probeSuccessesRequired - 1);
    var s0 := Sys(s, map[]);
    var s1 := Next(cfg, s0, BeginObserve(p, Ok, 0.0, now, now));
    NextIsReachable(cfg, s0, BeginObserve(p, Ok, 0.0, now, now));
    var s2 := Next(cfg, s1, Advance(p));
    NextIsReachable(cfg, s1, Advance(p));
    assert s2.store.hash == s.hash && s2.procs[p] == Writing(ClosedHash(cfg));
    var s3 := Next(cfg, s2, BeginObserve(q, Timeout, 0.0, now, now));
    NextIsReachable(cfg, s2, BeginObserve(q, Timeout, 0.0, now, now));
    var s4 := Next(cfg, s3, Advance(q));
    NextIsReachable(cfg, s3, Advance(q));
    assert s4.procs[q] == Writing(OpenHash(now, Doubled(cfg, cfg.cooldownS)));
    sys := Next(cfg, s4, Advance(q));
    NextIsReachable(cfg, s4, Advance(q));
  }

  /** A stale read. Under every configuration two requests can leave the circuit just reopened by a
      failed probe, with a mere reader still to write what it saw before: an outage whose cooldown
      had run out. Its next command makes the circuit half-open again with the old cooldown, so
      that neither the wait nor the doubling is left of the reopening. */
  lemma StaleReaderUndoesTheReopening(cfg: Config, p: nat, q: nat) returns (sys: Sys)
    requires cfg.Valid() && p != q
    ensures Reachable(cfg, sys)
    ensures sys.store.hash == OpenHash(Over(cfg), Doubled(cfg, cfg.cooldownS))
    ensures Next(cfg, sys, Advance(p)).store.hash == HalfOpenHash(cfg.cooldownS)
  {
    var now := Over(cfg);
    var s := DueIsReachable(cfg);
    var s0 := Sys(s, map[]);
    var s1 := Next(cfg, s0, BeginPeek(p, now));
    NextIsReachable(cfg, s0, BeginPeek(p, now));
    var s2 := Next(cfg, s1, Advance(p));
    NextIsReachable(cfg, s1, Advance(p));
    var s3 := Next(cfg, s2, BeginObserve(q, Timeout, 0.0, now, now));
    NextIsReachable(cfg, s2, BeginObserve(q, Timeout, 0.0, now, now));
    var s4 := Next(cfg, s3, Advance(q));
    NextIsReachable(cfg, s3, Advance(q));
    var s5 := Next(cfg, s4, Advance(q));
    NextIsReachable(cfg, s4, Advance(q));
    var s6 := Next(cfg, s5, Advance(q));
    NextIsReachable(cfg, s5, Advance(q));
    sys := Next(cfg, s6, Advance(q));
    NextIsReachable(cfg, s6, Advance(q));
  }
}
