/** Caller faults carry no weight: whole runs of the breaker are the same whether or not
    CONTENT_FILTER and BAD_REQUEST samples are ever written to the health window. */
module BreakerErasure {
  import opened Outcomes
  import opened Health
  import opened Percentiles
  import opened Breaker
  import opened BreakerRuns

  predicate IsCallerFault(e: Event) {
    e.Observe? && KindOf(e.outcome) == CallerFault
  }

  /** The same step, except that a caller fault leaves no sample behind. */
  function QuietStep(cfg: Config, s: Store, e: Event): Store {
    if IsCallerFault(e) then Folded(cfg, s, e.outcome, e.nowMs) else Step(cfg, s, e)
  }

  ghost predicate IsQuietRun(cfg: Config, ss: seq<Store>, es: seq<Event>) {
    && |ss| == |es| + 1
    && ss[0] == FRESH
    && forall i :: 0 <= i < |es| ==> ss[i + 1] == QuietStep(cfg, ss[i], es[i])
  }

  /** Every trip decision is taken at or after every sample written until then, and a sample is
      written at most one window behind any before it. */
  ghost predicate OnTime(cfg: Config, es: seq<Event>) {
    forall i, j :: 0 <= i <= j < |es| && es[i].Observe? && es[j].Observe? ==>
      && es[i].recordedMs <= es[j].nowMs
      && es[i].recordedMs <= es[j].recordedMs + cfg.windowS * 1000
  }

  /** The samples a read at nowMs may still see, caller faults dropped. */
  function Evidence(w: Window, windowS: int, nowMs: int): seq<Sample> {
    WithoutCallerFaults(Newer(w.members, nowMs - windowS * 1000))
  }

  ghost predicate SameEvidence(a: Window, b: Window, windowS: int, lastMs: int) {
    && Timely(a, windowS, lastMs)
    && Timely(b, windowS, lastMs)
    && forall nowMs :: lastMs <= nowMs ==> Evidence(a, windowS, nowMs) == Evidence(b, windowS, nowMs)
  }

  lemma WithoutAppend(samples: seq<Sample>, s: Sample)
    ensures WithoutCallerFaults(samples + [s])
         == WithoutCallerFaults(samples) + if KindOf(s.outcome) == CallerFault then [] else [s]
  {
    assert (samples + [s])[..|samples|] == samples;
  }

  lemma EvidenceAfterRecord(w: Window, s: Sample, windowS: int, lastMs: int, nowMs: int)
    requires windowS > 0 && Timely(w, windowS, lastMs) && lastMs <= s.atMs + windowS * 1000 && s.atMs <= nowMs
    ensures Evidence(Recorded(w, s, windowS), windowS, nowMs) == Evidence(w, windowS, nowMs)
            + if KindOf(s.outcome) != CallerFault && s.atMs > nowMs - windowS * 1000 then [s] else []
  {
    var cutoff := nowMs - windowS * 1000;
    VisibleAfterRecord(w, s, windowS, lastMs, nowMs);
    RecordedTimely(w, s, windowS, lastMs);
    VisibleIsNewer(Recorded(w, s, windowS), windowS, Later(lastMs, s.atMs), nowMs);
    NewerAppend(w.members, s, cutoff);
    if s.atMs > cutoff {
      WithoutAppend(Newer(w.members, cutoff), s);
    }
  }

  lemma TimelyLater(w: Window, windowS: int, lastMs: int, laterMs: int)
    requires Timely(w, windowS, lastMs) && lastMs <= laterMs
    ensures Timely(w, windowS, laterMs)
  {}

  /** Recording on both sides, or a caller fault on the left only, keeps the evidence equal. */
  lemma RecordSame(a: Window, b: Window, s: Sample, windowS: int, lastMs: int)
    requires windowS > 0 && SameEvidence(a, b, windowS, lastMs) && lastMs <= s.atMs + windowS * 1000
    ensures SameEvidence(Recorded(a, s, windowS), Recorded(b, s, windowS), windowS, Later(lastMs, s.atMs))
    ensures KindOf(s.outcome) == CallerFault ==>
              SameEvidence(Recorded(a, s, windowS), b, windowS, Later(lastMs, s.atMs))
  {
    RecordedTimely(a, s, windowS, lastMs);
    RecordedTimely(b, s, windowS, lastMs);
    TimelyLater(b, windowS, lastMs, Later(lastMs, s.atMs));
    forall nowMs | Later(lastMs, s.atMs) <= nowMs
      ensures Evidence(Recorded(a, s, windowS), windowS, nowMs) == Evidence(Recorded(b, s, windowS), windowS, nowMs)
      ensures KindOf(s.outcome) == CallerFault ==>
                Evidence(Recorded(a, s, windowS), windowS, nowMs) == Evidence(b, windowS, nowMs)
    {
      EvidenceAfterRecord(a, s, windowS, lastMs, nowMs);
      EvidenceAfterRecord(b, s, windowS, lastMs, nowMs);
    }
  }

  lemma TripsOnHealth(cfg: Config, a: Window, b: Window, nowMs: int)
    requires SameHealth(Summary(Visible(a, cfg.windowS, nowMs)), Summary(Visible(b, cfg.windowS, nowMs)))
    ensures ErrorRateTrips(cfg, a, nowMs) == ErrorRateTrips(cfg, b, nowMs)
    ensures LatencyTrips(cfg, a, nowMs) == LatencyTrips(cfg, b, nowMs)
  {}

  lemma SummaryOfEvidence(w: Window, windowS: int, lastMs: int, nowMs: int)
    requires windowS > 0 && Timely(w, windowS, lastMs)
    ensures SameHealth(Summary(Visible(w, windowS, nowMs)), Summary(Evidence(w, windowS, nowMs)))
  {
    VisibleIsNewer(w, windowS, lastMs, nowMs);
    CallerFaultsAreInvisible(Visible(w, windowS, nowMs));
  }

  /** The trip condition sees nothing but the evidence. */
  lemma TripsOnEvidence(cfg: Config, a: Window, b: Window, lastMs: int, nowMs: int)
    requires cfg.windowS > 0 && SameEvidence(a, b, cfg.windowS, lastMs) && lastMs <= nowMs
    ensures ErrorRateTrips(cfg, a, nowMs) == ErrorRateTrips(cfg, b, nowMs)
    ensures LatencyTrips(cfg, a, nowMs) == LatencyTrips(cfg, b, nowMs)
  {
    SummaryOfEvidence(a, cfg.windowS, lastMs, nowMs);
    SummaryOfEvidence(b, cfg.windowS, lastMs, nowMs);
    assert Evidence(a, cfg.windowS, nowMs) == Evidence(b, cfg.windowS, nowMs);
    TripsOnHealth(cfg, a, b, nowMs);
  }

  ghost predicate SameStore(cfg: Config, a: Store, b: Store, lastMs: int) {
    a.hash == b.hash && SameEvidence(a.window, b.window, cfg.windowS, lastMs)
  }

  lemma FoldSame(cfg: Config, a: Store, b: Store, outcome: Outcome, lastMs: int, nowMs: int)
    requires cfg.windowS > 0 && SameStore(cfg, a, b, lastMs) && lastMs <= nowMs
    ensures SameStore(cfg, Folded(cfg, a, outcome, nowMs), Folded(cfg, b, outcome, nowMs), lastMs)
  {
    if Due(cfg, a.hash, nowMs) {
      assert Refreshed(cfg, a, nowMs) == Refreshed(cfg, b, nowMs);
    } else {
      TripsOnEvidence(cfg, a.window, b.window, lastMs, nowMs);
      assert Trips(cfg, a.window, nowMs) == Trips(cfg, b.window, nowMs);
    }
  }

  lemma ObserveSame(cfg: Config, a: Store, b: Store, e: Event, lastMs: int)
    requires cfg.windowS > 0 && SameStore(cfg, a, b, lastMs) && e.Observe?
    requires lastMs <= e.recordedMs + cfg.windowS * 1000 && Later(lastMs, e.recordedMs) <= e.nowMs
    ensures SameStore(cfg, Step(cfg, a, e), QuietStep(cfg, b, e), Later(lastMs, e.recordedMs))
  {
    var s := Sample(e.recordedMs, e.outcome, e.latencyMs);
    RecordSame(a.window, b.window, s, cfg.windowS, lastMs);
    var a' := a.(window := Recorded(a.window, s, cfg.windowS));
    var b' := if IsCallerFault(e) then b else b.(window := Recorded(b.window, s, cfg.windowS));
    FoldSame(cfg, a', b', e.outcome, Later(lastMs, e.recordedMs), e.nowMs);
  }

  lemma ReadSame(cfg: Config, a: Store, b: Store, e: Event, lastMs: int)
    requires SameStore(cfg, a, b, lastMs) && !e.Observe?
    ensures SameStore(cfg, Step(cfg, a, e), QuietStep(cfg, b, e), lastMs)
  {}

  /** The latest sample written by the first i events, or this if there is none. */
  function LatestWrite(es: seq<Event>, i: nat, noneMs: int): int
    requires i <= |es|
  {
    if i == 0 then noneMs
    else
      var before := LatestWrite(es, i - 1, noneMs);
      if es[i - 1].Observe? then Later(before, es[i - 1].recordedMs) else before
  }

  lemma {:induction false} LatestWriteBounds(es: seq<Event>, i: nat, noneMs: int, boundMs: int)
    requires i <= |es| && noneMs <= boundMs
    requires forall k :: 0 <= k < i && es[k].Observe? ==> es[k].recordedMs <= boundMs
    ensures LatestWrite(es, i, noneMs) <= boundMs
  {
    if i > 0 { LatestWriteBounds(es, i - 1, noneMs, boundMs); }
  }

  /** Erasure: with the caller-fault samples of a run left out of the window, the circuit goes
      through exactly the same states at exactly the same events, and the trip condition agrees
      at every later instant. No flood of caller faults creates a trip or masks one. */
  lemma {:induction false} CallerFaultErasure(cfg: Config, ss: seq<Store>, qs: seq<Store>, es: seq<Event>, i: nat,
                                              nowMs: int)
    requires cfg.Valid() && IsRun(cfg, ss, es) && IsQuietRun(cfg, qs, es) && OnTime(cfg, es) && i <= |es|
    requires forall k :: 0 <= k < i && es[k].Observe? ==> es[k].recordedMs <= nowMs
    ensures ss[i].hash == qs[i].hash
    ensures ErrorRateTrips(cfg, ss[i].window, nowMs) == ErrorRateTrips(cfg, qs[i].window, nowMs)
    ensures LatencyTrips(cfg, ss[i].window, nowMs) == LatencyTrips(cfg, qs[i].window, nowMs)
  {
    var noneMs := Early(es, nowMs);
    var lastMs := LatestWrite(es, i, noneMs);
    LatestWriteBounds(es, i, noneMs, nowMs);
    ErasureInvariant(cfg, ss, qs, es, i, noneMs);
    TripsOnEvidence(cfg, ss[i].window, qs[i].window, lastMs, nowMs);
  }

  /** An instant before everything that is written. */
  function Early(es: seq<Event>, nowMs: int): (earlyMs: int)
    ensures earlyMs <= nowMs
    ensures forall k :: 0 <= k < |es| && es[k].Observe? ==> earlyMs <= es[k].recordedMs
  {
    if es == [] then nowMs
    else
      var rest, e := Early(es[..|es| - 1], nowMs), es[|es| - 1];
      if e.Observe? && e.recordedMs < rest then e.recordedMs else rest
  }

  lemma {:induction false} ErasureInvariant(cfg: Config, ss: seq<Store>, qs: seq<Store>, es: seq<Event>, i: nat,
                                            noneMs: int)
    requires cfg.windowS > 0 && IsRun(cfg, ss, es) && IsQuietRun(cfg, qs, es) && OnTime(cfg, es) && i <= |es|
    requires forall k :: 0 <= k < |es| && es[k].Observe? ==> noneMs <= es[k].recordedMs
    ensures SameStore(cfg, ss[i], qs[i], LatestWrite(es, i, noneMs))
  {
    if i > 0 {
      var e, lastMs := es[i - 1], LatestWrite(es, i - 1, noneMs);
      ErasureInvariant(cfg, ss, qs, es, i - 1, noneMs);
      if e.Observe? {
        LatestWriteBounds(es, i - 1, noneMs, e.nowMs);
        LatestWriteBounds(es, i - 1, noneMs, e.recordedMs + cfg.windowS * 1000);
        ObserveSame(cfg, ss[i - 1], qs[i - 1], e, lastMs);
      } else {
        ReadSame(cfg, ss[i - 1], qs[i - 1], e, lastMs);
      }
    }
  }

  /** Exactly when a caller fault is the event a closed circuit trips at: when the window it
      arrives to already meets the trip condition without it. */
  lemma CallerFaultTripsIff(cfg: Config, s: Store, e: Event, lastMs: int)
    requires cfg.Valid() && IsCallerFault(e) && StateIn(s.hash) == Closed
    requires Timely(s.window, cfg.windowS, lastMs) && lastMs <= e.recordedMs + cfg.windowS * 1000
    requires lastMs <= e.nowMs && e.recordedMs <= e.nowMs
    ensures StateIn(Step(cfg, s, e).hash) == Open <==> Trips(cfg, s.window, e.nowMs)
  {
    var sample := Sample(e.recordedMs, e.outcome, e.latencyMs);
    RecordSame(s.window, s.window, sample, cfg.windowS, lastMs);
    var latestMs := Later(lastMs, e.recordedMs);
    TripsOnEvidence(cfg, Recorded(s.window, sample, cfg.windowS), s.window, latestMs, e.nowMs);
  }

  /** A run in which nothing but caller faults is ever recorded never leaves CLOSED. */
  lemma {:induction false} OnlyCallerFaultsNeverTrip(cfg: Config, ss: seq<Store>, es: seq<Event>, i: nat)
    requires cfg.Valid() && IsRun(cfg, ss, es) && i <= |es|
    requires forall k :: 0 <= k < |es| && es[k].Observe? ==> IsCallerFault(es[k])
    ensures StateIn(ss[i].hash) == Closed
  {
    var bad := Decide(cfg, ss, es);
    if StateIn(ss[i].hash) != Closed {
      var t := FirstTrip(cfg, ss, es, bad, i);
      var c := TripNeedsFreshEvidence(cfg, ss, es, t);
      NothingCounts(es, c, t + 1, Success);
      NothingCounts(es, c, t + 1, ProviderFault);
    }
  }

  /** A circuit that is not closed once tripped, and had been closed from the start until then. */
  lemma {:induction false} FirstTrip(cfg: Config, ss: seq<Store>, es: seq<Event>, bad: seq<bool>, i: nat)
    returns (t: nat)
    requires IsDecidedRun(cfg, ss, es, bad) && i < |ss| && StateIn(ss[i].hash) != Closed
    ensures t < i && TripsAt(ss, t) && forall k :: 0 <= k <= t ==> StateIn(ss[k].hash) == Closed
  {
    if k :| 0 <= k < i && StateIn(ss[k].hash) != Closed {
      t := FirstTrip(cfg, ss, es, bad, k);
    } else {
      t := i - 1;
    }
  }

  lemma {:induction false} NothingCounts(es: seq<Event>, from: nat, to: nat, kind: Kind)
    requires to <= |es| && kind != CallerFault
    requires forall k :: 0 <= k < |es| && es[k].Observe? ==> IsCallerFault(es[k])
    ensures NewSamples(es, from, to, kind) == multiset{}
  {
    if to > from { NothingCounts(es, from, to - 1, kind); }
  }

  const EXAMPLE := Config(0.5, 1, 20.0, 120.0, 0.5, 2, 60, 15000.0)

  lemma RecordedOne(w: Window, s: Sample, r: Window)
    requires s.atMs < w.expiresAtMs || w.members == []
    requires r.members == Newer(w.members, s.atMs - 60000) + [s] && r.expiresAtMs == s.atMs + 120000
    ensures Recorded(w, s, 60) == r
  {
    NewerAppend(w.members, s, s.atMs - 60000);
  }

  lemma NewerOne(s: Sample, cutoffMs: int)
    ensures Newer([s], cutoffMs) == if s.atMs > cutoffMs then [s] else []
  {
    NewerAppend([], s, cutoffMs);
    assert [] + [s] == [s];
  }

  lemma NewerTwo(s: Sample, t: Sample, cutoffMs: int)
    ensures Newer([s, t], cutoffMs) == Newer([s], cutoffMs) + Newer([t], cutoffMs)
  {
    NewerOne(t, cutoffMs);
    NewerAppend([s], t, cutoffMs);
    assert [s] + [t] == [s, t];
  }

  const GOOD := Sample(0, Ok, 100.0)
  const BAD := Sample(30000, Timeout, 100.0)
  const FAULT := Sample(60000, BadRequest, 3.0)
  const W1 := Window([GOOD], 120000)
  const W2 := Window([GOOD, BAD], 150000)
  const W3 := Window([BAD, FAULT], 180000)

  lemma ExampleWindows()
    ensures Recorded(EMPTY_WINDOW, GOOD, 60) == W1
    ensures Recorded(W1, BAD, 60) == W2
    ensures Recorded(W2, FAULT, 60) == W3
    ensures Visible(W1, 60, 0) == [GOOD]
    ensures Visible(W2, 60, 30000) == [GOOD, BAD]
    ensures Visible(W3, 60, 60000) == [BAD, FAULT]
  {
    NewerOne(GOOD, -60000);
    NewerOne(GOOD, -30000);
    NewerOne(GOOD, 0);
    NewerOne(BAD, -30000);
    NewerOne(BAD, 0);
    NewerOne(FAULT, 0);
    NewerTwo(GOOD, BAD, -30000);
    NewerTwo(GOOD, BAD, 0);
    NewerTwo(BAD, FAULT, 0);
    RecordedOne(EMPTY_WINDOW, GOOD, W1);
    RecordedOne(W1, BAD, W2);
    RecordedOne(W2, FAULT, W3);
  }

  lemma ExampleCounts()
    ensures Count([GOOD], Success) == 1 && Count([GOOD], ProviderFault) == 0 && HealthLatencies([GOOD]) == [100.0]
    ensures Count([GOOD, BAD], Success) == 1 && Count([GOOD, BAD], ProviderFault) == 1
    ensures HealthLatencies([GOOD, BAD]) == [100.0, 100.0]
    ensures Count([BAD, FAULT], Success) == 0 && Count([BAD, FAULT], ProviderFault) == 1
    ensures HealthLatencies([BAD, FAULT]) == [100.0]
  {
    assert [GOOD][..0] == [] && [BAD][..0] == [];
    assert [GOOD, BAD][..1] == [GOOD] && [BAD, FAULT][..1] == [BAD];
  }

  lemma HalfRate(ok: nat, bad: nat)
    requires ok + bad >= 1
    ensures Rate(bad, ok + bad, 0.0) > 0.5 <==> bad > ok
  {
    var whole := (ok + bad) as real;
    var rate := bad as real / whole;
    assert rate * whole == bad as real;
    assert rate > 0.5 ==> rate * whole > 0.5 * whole;
    assert rate <= 0.5 ==> rate * whole <= 0.5 * whole;
  }

  lemma ErrorRateFromCounts(w: Window, nowMs: int, seen: seq<Sample>, ok: nat, bad: nat)
    requires Visible(w, 60, nowMs) == seen
    requires Count(seen, Success) == ok && Count(seen, ProviderFault) == bad && ok + bad >= 1
    ensures ErrorRateTrips(EXAMPLE, w, nowMs) <==> bad > ok
  {
    HalfRate(ok, bad);
  }

  lemma LatencyQuiet(w: Window, nowMs: int, seen: seq<Sample>)
    requires Visible(w, 60, nowMs) == seen && HealthSamples(seen) >= 1
    requires forall i :: 0 <= i < |HealthLatencies(seen)| ==> HealthLatencies(seen)[i] <= 15000.0
    ensures !LatencyTrips(EXAMPLE, w, nowMs)
  {
    CountsPartitionTheWindow(seen);
    P95Within(HealthLatencies(seen), 15000.0);
  }

  lemma TripsFromCounts(w: Window, nowMs: int, seen: seq<Sample>, ok: nat, bad: nat)
    requires Visible(w, 60, nowMs) == seen
    requires Count(seen, Success) == ok && Count(seen, ProviderFault) == bad && ok + bad >= 1
    requires forall i :: 0 <= i < |HealthLatencies(seen)| ==> HealthLatencies(seen)[i] <= 15000.0
    ensures Trips(EXAMPLE, w, nowMs) <==> bad > ok
  {
    ErrorRateFromCounts(w, nowMs, seen, ok, bad);
    LatencyQuiet(w, nowMs, seen);
  }

  /** Only the condition is blind to caller faults, not the moment it is evaluated: here a bad
      request is the event at which the circuit opens, because the one good sample has just aged
      out of the window. */
  lemma CallerFaultCanBeTheTrippingEvent()
    ensures EXAMPLE.Valid()
    ensures var s1 := Step(EXAMPLE, FRESH, Observe(Ok, 100.0, 0, 0));
            var s2 := Step(EXAMPLE, s1, Observe(Timeout, 100.0, 30000, 30000));
            var s3 := Step(EXAMPLE, s2, Observe(BadRequest, 3.0, 60000, 60000));
            StateIn(s2.hash) == Closed && StateIn(s3.hash) == Open
  {
    ExampleWindows();
    ExampleCounts();
    TripsFromCounts(W1, 0, [GOOD], 1, 0);
    assert Step(EXAMPLE, FRESH, Observe(Ok, 100.0, 0, 0)) == Store(NO_HASH, W1);
    TripsFromCounts(W2, 30000, [GOOD, BAD], 1, 1);
    assert Step(EXAMPLE, Store(NO_HASH, W1), Observe(Timeout, 100.0, 30000, 30000)) == Store(NO_HASH, W2);
    TripsFromCounts(W3, 60000, [BAD, FAULT], 0, 1);
  }
}
