/** The per-provider sliding health window (gateway/health.py): a sorted set of samples under
    one key with a time-to-live, evicted on write and filtered again on read. */
module Health {
  import opened Outcomes
  import opened Percentiles

  datatype Sample = Sample(atMs: int, outcome: Outcome, latencyMs: real)

  /** The key's value and the instant its TTL runs out. An absent key has no members. */
  datatype Window = Window(members: seq<Sample>, expiresAtMs: int)

  const EMPTY_WINDOW := Window([], 0)

  datatype Snapshot = Snapshot(
    samples: nat,
    healthSamples: nat,
    successes: nat,
    successRate: real,
    errorsByType: map<Outcome, nat>,
    trippableErrors: nat,
    trippableErrorRate: real,
    percentiles: Cuts)

  // ---------------------------------------------------------------- the stored window

  /** The samples with a score strictly above the cutoff. */
  function Newer(samples: seq<Sample>, cutoffMs: int): seq<Sample> {
    if samples == [] then []
    else
      var init, last := Newer(samples[..|samples| - 1], cutoffMs), samples[|samples| - 1];
      if last.atMs > cutoffMs then init + [last] else init
  }

  /** What the key holds once its TTL is taken into account. */
  function Live(w: Window, nowMs: int): seq<Sample> {
    if nowMs < w.expiresAtMs then w.members else []
  }

  /** ZADD, ZREMRANGEBYSCORE and EXPIRE in one transaction. */
  function Recorded(w: Window, s: Sample, windowS: int): Window {
    Window(Newer(Live(w, s.atMs) + [s], s.atMs - windowS * 1000), s.atMs + 2 * windowS * 1000)
  }

  /** What a read at nowMs sees: ZRANGEBYSCORE with an exclusive cutoff. */
  function Visible(w: Window, windowS: int, nowMs: int): seq<Sample> {
    Newer(Live(w, nowMs), nowMs - windowS * 1000)
  }

  lemma {:induction false} NewerAppend(a: seq<Sample>, s: Sample, cutoffMs: int)
    ensures Newer(a + [s], cutoffMs) == Newer(a, cutoffMs) + if s.atMs > cutoffMs then [s] else []
  {
    assert (a + [s])[..|a|] == a;
  }

  lemma {:induction false} NewerTwice(samples: seq<Sample>, early: int, late: int)
    requires early <= late
    ensures Newer(Newer(samples, early), late) == Newer(samples, late)
  {
    if samples != [] {
      var init, last := samples[..|samples| - 1], samples[|samples| - 1];
      NewerTwice(init, early, late);
      NewerAppend(Newer(init, early), last, late);
    }
  }

  /** The filter keeps exactly the young samples. */
  lemma {:induction false} NewerKeeps(samples: seq<Sample>, cutoffMs: int)
    ensures forall s :: s in Newer(samples, cutoffMs) <==> s in samples && s.atMs > cutoffMs
  {
    if samples != [] {
      var init, last := samples[..|samples| - 1], samples[|samples| - 1];
      NewerKeeps(init, cutoffMs);
      assert samples == init + [last];
    }
  }

  lemma {:induction false} NewerNothing(samples: seq<Sample>, cutoffMs: int)
    requires forall s :: s in samples ==> s.atMs <= cutoffMs
    ensures Newer(samples, cutoffMs) == []
  {
    if samples != [] {
      NewerNothing(samples[..|samples| - 1], cutoffMs);
    }
  }

  /** No member is later than lastMs, and the TTL outlasts every member's stay in the window. */
  ghost predicate Timely(w: Window, windowS: int, lastMs: int) {
    forall s :: s in w.members ==> s.atMs <= lastMs && s.atMs + windowS * 1000 <= w.expiresAtMs
  }

  function Later(a: int, b: int): int { if a <= b then b else a }

  lemma RecordedTimely(w: Window, s: Sample, windowS: int, lastMs: int)
    requires windowS > 0 && Timely(w, windowS, lastMs) && lastMs <= s.atMs + windowS * 1000
    ensures Timely(Recorded(w, s, windowS), windowS, Later(lastMs, s.atMs))
  {
    NewerKeeps(Live(w, s.atMs) + [s], s.atMs - windowS * 1000);
  }

  /** What eviction is for: after a write the key holds the new sample and otherwise only samples
      it held before that are younger than the window, so it cannot grow past the window. */
  lemma WriteBoundsTheKey(w: Window, s: Sample, windowS: int)
    requires windowS > 0
    ensures s in Recorded(w, s, windowS).members
    ensures forall m :: m in Recorded(w, s, windowS).members ==>
              m.atMs > s.atMs - windowS * 1000 && (m == s || m in w.members)
  {
    NewerKeeps(Live(w, s.atMs) + [s], s.atMs - windowS * 1000);
  }

  /** TTL expiry is invisible: a read sees exactly the stored members that are young enough. */
  lemma VisibleIsNewer(w: Window, windowS: int, lastMs: int, nowMs: int)
    requires windowS > 0 && Timely(w, windowS, lastMs)
    ensures Visible(w, windowS, nowMs) == Newer(w.members, nowMs - windowS * 1000)
  {
    if nowMs >= w.expiresAtMs {
      NewerNothing(w.members, nowMs - windowS * 1000);
    }
  }

  lemma {:induction false} EvictThenRead(held: seq<Sample>, samples: seq<Sample>, s: Sample, evict: int, read: int)
    requires evict <= read
    requires held == samples || (held == [] && forall m :: m in samples ==> m.atMs <= read)
    ensures Newer(Newer(held + [s], evict), read) == Newer(samples + [s], read)
  {
    NewerTwice(held + [s], evict, read);
    NewerAppend(held, s, read);
    NewerAppend(samples, s, read);
    if held != samples {
      NewerNothing(samples, read);
    }
  }

  lemma LapsedIsOld(w: Window, windowS: int, lastMs: int, atMs: int, nowMs: int)
    requires windowS > 0 && Timely(w, windowS, lastMs) && atMs <= nowMs
    ensures var held := Live(w, atMs);
            held == w.members || (held == [] && forall m :: m in w.members ==> m.atMs <= nowMs - windowS * 1000)
  {}

  /** Write-side eviction is invisible too, even of a write that comes late, as long as it comes no
      more than one window behind the latest sample. */
  lemma VisibleAfterRecord(w: Window, s: Sample, windowS: int, lastMs: int, nowMs: int)
    requires windowS > 0 && Timely(w, windowS, lastMs) && lastMs <= s.atMs + windowS * 1000 && s.atMs <= nowMs
    ensures Visible(Recorded(w, s, windowS), windowS, nowMs)
         == Newer(w.members + [s], nowMs - windowS * 1000)
  {
    RecordedTimely(w, s, windowS, lastMs);
    VisibleIsNewer(Recorded(w, s, windowS), windowS, Later(lastMs, s.atMs), nowMs);
    LapsedIsOld(w, windowS, lastMs, s.atMs, nowMs);
    EvictThenRead(Live(w, s.atMs), w.members, s, s.atMs - windowS * 1000, nowMs - windowS * 1000);
  }

  /** Reads at or after every sample and after this write do not see what the write evicted. */
  ghost predicate WriteIsInvisible(w: Window, s: Sample, windowS: int) {
    forall nowMs :: s.atMs <= nowMs && (forall m :: m in w.members ==> m.atMs <= nowMs) ==>
      Visible(Recorded(w, s, windowS), windowS, nowMs) == Newer(w.members + [s], nowMs - windowS * 1000)
  }

  lemma {:induction false} LatestOf(samples: seq<Sample>) returns (latest: Sample)
    requires samples != []
    ensures latest in samples && forall m :: m in samples ==> m.atMs <= latest.atMs
  {
    var init, last := samples[..|samples| - 1], samples[|samples| - 1];
    assert samples == init + [last];
    latest := last;
    if init != [] {
      var other := LatestOf(init);
      if other.atMs > last.atMs { latest := other; }
    }
  }

  /** How late a write may come is exact: one more than a window behind a stored sample shortens the
      key's TTL so far that it takes that sample with it while it should still be seen. */
  lemma WriteIsInvisibleIff(w: Window, s: Sample, windowS: int, lastMs: int)
    requires windowS > 0 && Timely(w, windowS, lastMs)
    ensures WriteIsInvisible(w, s, windowS) <==> forall m :: m in w.members ==> m.atMs <= s.atMs + windowS * 1000
  {
    if w.members != [] {
      var latest := LatestOf(w.members);
      if latest.atMs <= s.atMs + windowS * 1000 {
        OnTimeIsInvisible(w, s, windowS, latest.atMs);
      } else {
        TooLateIsSeen(w, s, windowS, latest);
      }
    } else {
      OnTimeIsInvisible(w, s, windowS, s.atMs);
    }
  }

  lemma OnTimeIsInvisible(w: Window, s: Sample, windowS: int, lastMs: int)
    requires windowS > 0 && Timely(w, windowS, lastMs) && lastMs <= s.atMs + windowS * 1000
    ensures WriteIsInvisible(w, s, windowS)
  {
    forall nowMs | s.atMs <= nowMs
      ensures Visible(Recorded(w, s, windowS), windowS, nowMs) == Newer(w.members + [s], nowMs - windowS * 1000)
    {
      VisibleAfterRecord(w, s, windowS, lastMs, nowMs);
    }
  }

  lemma TooLateIsSeen(w: Window, s: Sample, windowS: int, latest: Sample)
    requires windowS > 0 && latest in w.members && latest.atMs > s.atMs + windowS * 1000
    requires forall m :: m in w.members ==> m.atMs <= latest.atMs
    ensures !WriteIsInvisible(w, s, windowS)
  {
    var nowMs := Later(latest.atMs, s.atMs + 2 * windowS * 1000);
    NewerKeeps(w.members + [s], nowMs - windowS * 1000);
    assert latest in w.members + [s];
    assert latest in Newer(w.members + [s], nowMs - windowS * 1000);
    assert Live(Recorded(w, s, windowS), nowMs) == [];
    assert Visible(Recorded(w, s, windowS), windowS, nowMs) == [];
  }

  // ---------------------------------------------------------------- the window against the full log

  datatype Op = Put(sample: Sample) | Clear

  /** Writes may reach the key out of clock order, each at most one window behind any before it. */
  ghost predicate Punctual(ops: seq<Op>, windowS: int) {
    forall i, j :: 0 <= i < j < |ops| && ops[i].Put? && ops[j].Put? ==>
      ops[i].sample.atMs <= ops[j].sample.atMs + windowS * 1000
  }

  /** No write is later than this. */
  ghost predicate Written(ops: seq<Op>, nowMs: int) {
    forall i :: 0 <= i < |ops| && ops[i].Put? ==> ops[i].sample.atMs <= nowMs
  }

  /** The stored window after a history of writes and clears. */
  function After(ops: seq<Op>, windowS: int): Window {
    if ops == [] then EMPTY_WINDOW
    else
      var w := After(ops[..|ops| - 1], windowS);
      match ops[|ops| - 1]
      case Put(s) => Recorded(w, s, windowS)
      case Clear => EMPTY_WINDOW
  }

  /** Everything logged since the last clear, nothing ever evicted. */
  function Log(ops: seq<Op>): seq<Sample> {
    if ops == [] then []
    else
      match ops[|ops| - 1]
      case Put(s) => Log(ops[..|ops| - 1]) + [s]
      case Clear => []
  }

  lemma {:induction false} StoredIsTimely(ops: seq<Op>, windowS: int, lastMs: int)
    requires windowS > 0 && Punctual(ops, windowS) && Written(ops, lastMs)
    ensures Timely(After(ops, windowS), windowS, lastMs)
  {
    if ops != [] && ops[|ops| - 1].Put? {
      var init, s := ops[..|ops| - 1], ops[|ops| - 1].sample;
      var beforeMs := if lastMs <= s.atMs + windowS * 1000 then lastMs else s.atMs + windowS * 1000;
      StoredIsTimely(init, windowS, beforeMs);
      RecordedTimely(After(init, windowS), s, windowS, beforeMs);
    }
  }

  lemma {:induction false} StoredIsSuffixOfLog(ops: seq<Op>, windowS: int, nowMs: int)
    requires windowS > 0 && Punctual(ops, windowS) && Written(ops, nowMs)
    ensures Newer(After(ops, windowS).members, nowMs - windowS * 1000) == Newer(Log(ops), nowMs - windowS * 1000)
  {
    if ops != [] {
      var init := ops[..|ops| - 1];
      StoredIsSuffixOfLog(init, windowS, nowMs);
      if ops[|ops| - 1].Put? {
        var s := ops[|ops| - 1].sample;
        var w, readMs := After(init, windowS), nowMs - windowS * 1000;
        StoredIsTimely(init, windowS, s.atMs + windowS * 1000);
        VisibleAfterRecord(w, s, windowS, s.atMs + windowS * 1000, nowMs);
        StoredIsTimely(ops, windowS, nowMs);
        VisibleIsNewer(After(ops, windowS), windowS, nowMs, nowMs);
        NewerAppend(w.members, s, readMs);
        NewerAppend(Log(init), s, readMs);
      }
    }
  }

  /** A snapshot of the evicting, expiring window is the summary of the complete log since the
      last clear, cut at the window's edge, even if writes arrive out of clock order. */
  lemma WindowAgreesWithLog(ops: seq<Op>, windowS: int, nowMs: int)
    requires windowS > 0 && Punctual(ops, windowS) && Written(ops, nowMs)
    ensures Summary(Visible(After(ops, windowS), windowS, nowMs)) == Summary(Newer(Log(ops), nowMs - windowS * 1000))
  {
    StoredIsSuffixOfLog(ops, windowS, nowMs);
    StoredIsTimely(ops, windowS, nowMs);
    VisibleIsNewer(After(ops, windowS), windowS, nowMs, nowMs);
  }

  // ---------------------------------------------------------------- the summary

  function Count(samples: seq<Sample>, kind: Kind): (n: nat)
    ensures n <= |samples|
  {
    if samples == [] then 0
    else Count(samples[..|samples| - 1], kind) + if KindOf(samples[|samples| - 1].outcome) == kind then 1 else 0
  }

  function CountOutcome(samples: seq<Sample>, outcome: Outcome): nat {
    if samples == [] then 0
    else CountOutcome(samples[..|samples| - 1], outcome) + if samples[|samples| - 1].outcome == outcome then 1 else 0
  }

  /** The latencies of the calls that count, caller faults left out. */
  function HealthLatencies(samples: seq<Sample>): seq<real> {
    if samples == [] then []
    else
      var init, last := HealthLatencies(samples[..|samples| - 1]), samples[|samples| - 1];
      if KindOf(last.outcome) != CallerFault then init + [last.latencyMs] else init
  }

  function Errors(samples: seq<Sample>): map<Outcome, nat> {
    map o: Outcome | CountOutcome(samples, o) > 0 && !IsOk(o) :: CountOutcome(samples, o)
  }

  function HealthSamples(samples: seq<Sample>): nat {
    Count(samples, Success) + Count(samples, ProviderFault)
  }

  function Rate(part: nat, whole: nat, default: real): real {
    if whole != 0 then part as real / whole as real else default
  }

  function Summary(samples: seq<Sample>): Snapshot {
    var ok, trippable := Count(samples, Success), Count(samples, ProviderFault);
    Snapshot(
      |samples|,
      ok + trippable,
      ok,
      Rate(ok, ok + trippable, 1.0),
      Errors(samples),
      trippable,
      Rate(trippable, ok + trippable, 0.0),
      PercentilesOf(HealthLatencies(samples)))
  }

  /** Where this outcome occurs. */
  function Positions(samples: seq<Sample>, o: Outcome): set<nat> {
    set k: nat | k < |samples| && samples[k].outcome == o
  }

  lemma PositionsOfInit(samples: seq<Sample>, o: Outcome)
    requires samples != []
    ensures var n := |samples| - 1;
            && n !in Positions(samples[..n], o)
            && Positions(samples, o) == Positions(samples[..n], o) + if samples[n].outcome == o then {n} else {}
  {}

  lemma {:induction false} CountOutcomeIsSize(samples: seq<Sample>, o: Outcome)
    ensures CountOutcome(samples, o) == |Positions(samples, o)|
  {
    if samples != [] {
      PositionsOfInit(samples, o);
      CountOutcomeIsSize(samples[..|samples| - 1], o);
    }
  }

  /** The rate is the share of the whole, or this if there is no whole. */
  ghost predicate IsShare(rate: real, part: nat, whole: nat, none: real) {
    if whole == 0 then rate == none else rate * whole as real == part as real
  }

  lemma RateIsShare(part: nat, whole: nat, none: real)
    ensures IsShare(Rate(part, whole, none), part, whole, none)
  {}

  /** What a summary says of the calls: each of them is counted, and the rates are the shares of
      those that count, 1 and 0 if none does. */
  lemma SummaryIsExact(samples: seq<Sample>)
    ensures var s := Summary(samples);
            && s.samples == |samples|
            && s.healthSamples == s.successes + s.trippableErrors == |HealthLatencies(samples)|
            && IsShare(s.successRate, s.successes, s.healthSamples, 1.0)
            && IsShare(s.trippableErrorRate, s.trippableErrors, s.healthSamples, 0.0)
  {
    var ok, faults := Count(samples, Success), Count(samples, ProviderFault);
    CountsPartitionTheWindow(samples);
    RateIsShare(ok, ok + faults, 1.0);
    RateIsShare(faults, ok + faults, 0.0);
  }

  /** And of the errors: each kind that occurs, those of the caller included, is counted once for
      every sample that carries it. */
  lemma ErrorsAreCounted(samples: seq<Sample>, o: Outcome)
    ensures var errors := Summary(samples).errorsByType;
            && (o in errors <==> o != Ok && Positions(samples, o) != {})
            && (o in errors ==> errors[o] == |Positions(samples, o)|)
  {
    CountOutcomeIsSize(samples, o);
  }

  /** Rates, counts and percentiles; everything the breaker reads. */
  ghost predicate SameHealth(a: Snapshot, b: Snapshot) {
    && a.healthSamples == b.healthSamples
    && a.successes == b.successes
    && a.successRate == b.successRate
    && a.trippableErrors == b.trippableErrors
    && a.trippableErrorRate == b.trippableErrorRate
    && a.percentiles == b.percentiles
  }

  /** The window with every CONTENT_FILTER and BAD_REQUEST sample deleted. */
  function WithoutCallerFaults(samples: seq<Sample>): seq<Sample> {
    if samples == [] then []
    else
      var init, last := WithoutCallerFaults(samples[..|samples| - 1]), samples[|samples| - 1];
      if KindOf(last.outcome) == CallerFault then init else init + [last]
  }

  /** Exactly the caller faults are deleted. */
  lemma {:induction false} OnlyCallerFaultsGo(samples: seq<Sample>, s: Sample)
    ensures multiset(WithoutCallerFaults(samples))[s]
         == if KindOf(s.outcome) == CallerFault then 0 else multiset(samples)[s]
  {
    if samples != [] {
      var init, last := samples[..|samples| - 1], samples[|samples| - 1];
      OnlyCallerFaultsGo(init, s);
      assert samples == init + [last];
    }
  }

  /** The percentiles are taken over the latencies of the others, each in its place. */
  lemma {:induction false} LatenciesOfTheRest(samples: seq<Sample>)
    ensures var kept := WithoutCallerFaults(samples);
            && |HealthLatencies(samples)| == |kept|
            && forall k :: 0 <= k < |kept| ==> HealthLatencies(samples)[k] == kept[k].latencyMs
  {
    if samples != [] { LatenciesOfTheRest(samples[..|samples| - 1]); }
  }

  lemma {:induction false} CallerFaultsAreInvisible(samples: seq<Sample>)
    ensures SameHealth(Summary(samples), Summary(WithoutCallerFaults(samples)))
  {
    ErasureKeepsHealth(samples);
  }

  lemma {:induction false} ErasureKeepsHealth(samples: seq<Sample>)
    ensures var kept := WithoutCallerFaults(samples);
            && Count(kept, Success) == Count(samples, Success)
            && Count(kept, ProviderFault) == Count(samples, ProviderFault)
            && HealthLatencies(kept) == HealthLatencies(samples)
  {
    if samples != [] {
      var init, last := samples[..|samples| - 1], samples[|samples| - 1];
      ErasureKeepsHealth(init);
      var kept := WithoutCallerFaults(init);
      assert (kept + [last])[..|kept|] == kept;
    }
  }

  /** The counts are the real ones: each counter is the size of its part of the window, and the
      three parts make up the whole. */
  lemma {:induction false} CountsPartitionTheWindow(samples: seq<Sample>)
    ensures Count(samples, Success) + Count(samples, ProviderFault) + Count(samples, CallerFault) == |samples|
    ensures |HealthLatencies(samples)| == HealthSamples(samples)
    ensures CountOutcome(samples, Ok) == Count(samples, Success)
  {
    if samples != [] {
      CountsPartitionTheWindow(samples[..|samples| - 1]);
    }
  }

  lemma {:induction false} CountAppend(samples: seq<Sample>, s: Sample, kind: Kind)
    ensures Count(samples + [s], kind) == Count(samples, kind) + if KindOf(s.outcome) == kind then 1 else 0
  {
    assert (samples + [s])[..|samples|] == samples;
  }

  lemma {:induction false} CountNewer(samples: seq<Sample>, cutoffMs: int, kind: Kind)
    ensures Count(Newer(samples, cutoffMs), kind) <= Count(samples, kind)
  {
    if samples != [] {
      var init, last := samples[..|samples| - 1], samples[|samples| - 1];
      CountNewer(init, cutoffMs, kind);
      CountAppend(Newer(init, cutoffMs), last, kind);
    }
  }

  function Without(samples: seq<Sample>, k: nat): seq<Sample>
    requires k < |samples|
  {
    samples[..k] + samples[k + 1..]
  }

  lemma WithoutOfInit(samples: seq<Sample>, k: nat)
    requires k < |samples| - 1
    ensures var rest := Without(samples, k);
            && rest[..|rest| - 1] == Without(samples[..|samples| - 1], k)
            && rest[|rest| - 1] == samples[|samples| - 1]
  {}

  lemma {:induction false} CountWithout(samples: seq<Sample>, k: nat, kind: Kind)
    requires k < |samples|
    ensures Count(samples, kind)
         == Count(Without(samples, k), kind) + if KindOf(samples[k].outcome) == kind then 1 else 0
  {
    if k == |samples| - 1 {
      assert Without(samples, k) == samples[..k];
    } else {
      WithoutOfInit(samples, k);
      CountWithout(samples[..|samples| - 1], k, kind);
    }
  }

  lemma {:induction false} CountOutcomeWithout(samples: seq<Sample>, k: nat, o: Outcome)
    requires k < |samples|
    ensures CountOutcome(samples, o) == CountOutcome(Without(samples, k), o) + if samples[k].outcome == o then 1 else 0
  {
    if k == |samples| - 1 {
      assert Without(samples, k) == samples[..k];
    } else {
      WithoutOfInit(samples, k);
      CountOutcomeWithout(samples[..|samples| - 1], k, o);
    }
  }

  function LatencyOf(s: Sample): multiset<real> {
    if KindOf(s.outcome) != CallerFault then multiset{s.latencyMs} else multiset{}
  }

  lemma LatenciesOfInit(samples: seq<Sample>)
    requires samples != []
    ensures multiset(HealthLatencies(samples))
         == multiset(HealthLatencies(samples[..|samples| - 1])) + LatencyOf(samples[|samples| - 1])
  {}

  lemma {:induction false} LatenciesWithout(samples: seq<Sample>, k: nat)
    requires k < |samples|
    ensures multiset(HealthLatencies(samples)) == multiset(HealthLatencies(Without(samples, k))) + LatencyOf(samples[k])
  {
    LatenciesOfInit(samples);
    if k == |samples| - 1 {
      assert Without(samples, k) == samples[..k];
    } else {
      WithoutOfInit(samples, k);
      LatenciesOfInit(Without(samples, k));
      LatenciesWithout(samples[..|samples| - 1], k);
    }
  }

  /** Pairs the last sample of a with an equal one of b and drops both. */
  lemma MatchLast(a: seq<Sample>, b: seq<Sample>) returns (k: nat)
    requires multiset(a) == multiset(b) && a != []
    ensures k < |b| && b[k] == a[|a| - 1]
    ensures multiset(a[..|a| - 1]) == multiset(Without(b, k))
  {
    var n := |a| - 1;
    assert a[n] in multiset(b);
    k :| 0 <= k < |b| && b[k] == a[n];
    assert a == a[..n] + [a[n]];
    assert multiset(a[..n]) == multiset(a) - multiset{a[n]};
    assert b == b[..k] + [b[k]] + b[k + 1..];
    assert multiset(b) == multiset(b[..k]) + multiset{b[k]} + multiset(b[k + 1..]);
    assert multiset(Without(b, k)) == multiset(b[..k]) + multiset(b[k + 1..]);
    assert multiset(Without(b, k)) == multiset(b) - multiset{b[k]};
  }

  lemma {:induction false} CountIgnoresOrder(a: seq<Sample>, b: seq<Sample>, kind: Kind, o: Outcome)
    requires multiset(a) == multiset(b)
    ensures Count(a, kind) == Count(b, kind)
    ensures CountOutcome(a, o) == CountOutcome(b, o)
    decreases |a|
  {
    if a != [] {
      var k := MatchLast(a, b);
      CountWithout(b, k, kind);
      CountOutcomeWithout(b, k, o);
      CountIgnoresOrder(a[..|a| - 1], Without(b, k), kind, o);
    } else {
      assert |multiset(b)| == 0;
    }
  }

  lemma {:induction false} LatenciesIgnoreOrder(a: seq<Sample>, b: seq<Sample>)
    requires multiset(a) == multiset(b)
    ensures multiset(HealthLatencies(a)) == multiset(HealthLatencies(b))
    decreases |a|
  {
    if a != [] {
      var k := MatchLast(a, b);
      LatenciesOfInit(a);
      LatenciesWithout(b, k);
      LatenciesIgnoreOrder(a[..|a| - 1], Without(b, k));
    } else {
      assert |multiset(b)| == 0;
    }
  }

  /** The order Redis returns equal scores in does not matter. */
  lemma SummaryIgnoresOrder(a: seq<Sample>, b: seq<Sample>)
    requires multiset(a) == multiset(b)
    ensures Summary(a) == Summary(b)
  {
    assert |a| == |multiset(a)| && |b| == |multiset(b)|;
    forall o: Outcome ensures CountOutcome(a, o) == CountOutcome(b, o) {
      CountIgnoresOrder(a, b, Success, o);
    }
    assert Errors(a) == Errors(b);
    CountIgnoresOrder(a, b, Success, Ok);
    CountIgnoresOrder(a, b, ProviderFault, Ok);
    LatenciesIgnoreOrder(a, b);
    PercentilesIgnoreOrder(HealthLatencies(a), HealthLatencies(b));
  }

  // ---------------------------------------------------------------- the stateful window

  class HealthWindow {
    const windowS: int
    var members: seq<Sample>
    var expiresAtMs: int

    ghost function View(): Window
      reads this
    {
      Window(members, expiresAtMs)
    }

    constructor (windowS: int)
      ensures this.windowS == windowS && View() == EMPTY_WINDOW
    {
      this.windowS := windowS;
      members := [];
      expiresAtMs := 0;
    }

    /** One write: the new sample in, the ones too old out, the TTL renewed. */
    method Record(outcome: Outcome, latencyMs: real, nowMs: int)
      modifies this
      ensures View() == Recorded(old(View()), Sample(nowMs, outcome, latencyMs), windowS)
    {
      if nowMs >= expiresAtMs {
        members := [];
      }
      members := members + [Sample(nowMs, outcome, latencyMs)];
      members := Newer(members, nowMs - windowS * 1000);
      var ttlS := windowS * 1000 / 1000 * 2;
      assert ttlS == 2 * windowS;
      expiresAtMs := nowMs + ttlS * 1000;
    }

    /** DEL of the key, as the breaker does on entering half-open. */
    method Clear()
      modifies this
      ensures View() == EMPTY_WINDOW
    {
      members := [];
      expiresAtMs := 0;
    }

    method Snapshot(nowMs: int) returns (snap: Snapshot)
      ensures snap == Summary(Visible(View(), windowS, nowMs))
    {
      var held := if nowMs < expiresAtMs then members else [];
      snap := Summarise(Newer(held, nowMs - windowS * 1000));
    }
  }

  datatype Tally = Tally(successes: nat, trippable: nat, errors: map<Outcome, nat>, latencies: seq<real>)

  ghost function TallyOf(samples: seq<Sample>): Tally {
    Tally(Count(samples, Success), Count(samples, ProviderFault), Errors(samples), HealthLatencies(samples))
  }

  lemma TallyStep(samples: seq<Sample>, i: nat)
    requires i < |samples|
    ensures var t, o := TallyOf(samples[..i]), samples[i].outcome;
            var counted := if o in t.errors then t.errors[o] + 1 else 1;
            TallyOf(samples[..i + 1]) ==
            if IsOk(o) then Tally(t.successes + 1, t.trippable, t.errors, t.latencies + [samples[i].latencyMs])
            else if IsTrippable(o) then
              Tally(t.successes, t.trippable + 1, t.errors[o := counted], t.latencies + [samples[i].latencyMs])
            else Tally(t.successes, t.trippable, t.errors[o := counted], t.latencies)
  {
    var init, s := samples[..i], samples[i];
    assert samples[..i + 1][..i] == init;
    assert forall o :: CountOutcome(samples[..i + 1], o) == CountOutcome(init, o) + if s.outcome == o then 1 else 0;
    assert Errors(samples[..i + 1]) ==
           if IsOk(s.outcome) then Errors(init) else Errors(init)[s.outcome := CountOutcome(init, s.outcome) + 1];
  }

  method Summarise(members: seq<Sample>) returns (snap: Snapshot)
    ensures snap == Summary(members)
  {
    if members == [] {
      return Snapshot.Snapshot(0, 0, 0, 1.0, map[], 0, 0.0, Cuts(0.0, 0.0, 0.0));
    }

    var successes: nat, trippable: nat := 0, 0;
    var errors: map<Outcome, nat> := map[];
    var latencies: seq<real> := [];

    for i := 0 to |members|
      invariant Tally(successes, trippable, errors, latencies) == TallyOf(members[..i])
    {
      var outcome := members[i].outcome;
      TallyStep(members, i);
      if IsOk(outcome) {
        successes := successes + 1;
      } else {
        errors := errors[outcome := if outcome in errors then errors[outcome] + 1 else 1];
        if IsTrippable(outcome) {
          trippable := trippable + 1;
        }
      }
      if IsOk(outcome) || IsTrippable(outcome) {
        latencies := latencies + [members[i].latencyMs];
      }
    }
    assert members[..|members|] == members;

    var healthSamples := successes + trippable;
    snap := Snapshot.Snapshot(
      |members|,
      healthSamples,
      successes,
      if healthSamples != 0 then successes as real / healthSamples as real else 1.0,
      errors,
      trippable,
      if healthSamples != 0 then trippable as real / healthSamples as real else 0.0,
      PercentilesOf(latencies));
  }
}
