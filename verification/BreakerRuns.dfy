/** What whole runs of one provider's breaker guarantee when each observe, admission check and
    read is taken as one step: on what evidence circuits close and trip, and how far apart
    probes are. */
module BreakerRuns {
  import opened Outcomes
  import opened Health
  import opened Breaker
  import opened Percentiles
  import opened Powers

  /** One uninterrupted operation on a provider. */
  datatype Event =
    | Observe(outcome: Outcome, latencyMs: real, recordedMs: int, nowMs: int)
    | Ask(draw: real, nowMs: int)
    | Look(nowMs: int)

  function Step(cfg: Config, s: Store, e: Event): Store {
    match e
    case Observe(outcome, latencyMs, recordedMs, nowMs) => Observed(cfg, s, outcome, latencyMs, recordedMs, nowMs)
    case Ask(_, nowMs) => Refreshed(cfg, s, nowMs)
    case Look(nowMs) => Refreshed(cfg, s, nowMs)
  }

  /** ss[i] is the store before event i; the run starts from an empty Redis. */
  ghost predicate IsRun(cfg: Config, ss: seq<Store>, es: seq<Event>) {
    && |ss| == |es| + 1
    && ss[0] == FRESH
    && forall i :: 0 <= i < |es| ==> ss[i + 1] == Step(cfg, ss[i], es[i])
  }

  /** How many events in es[from..to] recorded an outcome of this kind. */
  function CountIn(es: seq<Event>, from: nat, to: nat, kind: Kind): nat
    requires to <= |es|
  {
    if to <= from then 0
    else CountIn(es, from, to - 1, kind)
         + if es[to - 1].Observe? && KindOf(es[to - 1].outcome) == kind then 1 else 0
  }

  // ---------------------------------------------------------------- a step, key by key

  /** The hash part of a step; trips says whether the judged window is bad. */
  function NextHash(cfg: Config, h: Hash, e: Event, trips: bool): Hash {
    var r := if Due(cfg, h, e.nowMs) then HalfOpenHash(CooldownIn(cfg, h)) else h;
    if !e.Observe? then r
    else
      match StateIn(r)
      case HalfOpen => Probed(cfg, r, e.outcome, e.nowMs)
      case Closed => if trips then OpenHash(e.nowMs, cfg.cooldownS) else r
      case Open => r
  }

  /** The sample an observe writes. */
  function SampleOf(e: Event): Sample
    requires e.Observe?
  {
    Sample(e.recordedMs, e.outcome, e.latencyMs)
  }

  /** The window the breaker looks at when it handles an observe. */
  function Judged(cfg: Config, s: Store, e: Event): Window
    requires e.Observe?
  {
    Recorded(s.window, SampleOf(e), cfg.windowS)
  }

  /** The window part of a step. */
  function NextWindow(cfg: Config, s: Store, e: Event): Window {
    if Due(cfg, s.hash, e.nowMs) then EMPTY_WINDOW
    else if e.Observe? then Judged(cfg, s, e)
    else s.window
  }

  predicate JudgedBad(cfg: Config, s: Store, e: Event) {
    e.Observe? && Trips(cfg, Judged(cfg, s, e), e.nowMs)
  }

  /** A run, with the trip decisions taken as given. */
  ghost predicate IsDecidedRun(cfg: Config, ss: seq<Store>, es: seq<Event>, bad: seq<bool>) {
    && |ss| == |es| + 1 == |bad| + 1
    && ss[0] == FRESH
    && forall i :: 0 <= i < |es| ==>
         ss[i + 1] == Store(NextHash(cfg, ss[i].hash, es[i], bad[i]), NextWindow(cfg, ss[i], es[i]))
  }

  lemma StepByKey(cfg: Config, s: Store, e: Event)
    ensures Step(cfg, s, e) == Store(NextHash(cfg, s.hash, e, JudgedBad(cfg, s, e)), NextWindow(cfg, s, e))
  {
    if e.Observe? && Due(cfg, s.hash, e.nowMs) {
      assert Refreshed(cfg, Store(s.hash, Judged(cfg, s, e)), e.nowMs)
             == Store(HalfOpenHash(CooldownIn(cfg, s.hash)), EMPTY_WINDOW);
    }
  }

  lemma Decide(cfg: Config, ss: seq<Store>, es: seq<Event>) returns (bad: seq<bool>)
    requires IsRun(cfg, ss, es)
    ensures IsDecidedRun(cfg, ss, es, bad)
    ensures forall i :: 0 <= i < |es| ==> bad[i] == JudgedBad(cfg, ss[i], es[i])
  {
    bad := seq(|es|, i requires 0 <= i < |es| => JudgedBad(cfg, ss[i], es[i]));
    forall i | 0 <= i < |es|
      ensures ss[i + 1] == Store(NextHash(cfg, ss[i].hash, es[i], bad[i]), NextWindow(cfg, ss[i], es[i]))
    {
      StepByKey(cfg, ss[i], es[i]);
    }
  }

  lemma DecidedStep(cfg: Config, ss: seq<Store>, es: seq<Event>, bad: seq<bool>, i: nat)
    requires IsDecidedRun(cfg, ss, es, bad) && i < |es|
    ensures ss[i + 1].hash == NextHash(cfg, ss[i].hash, es[i], bad[i])
    ensures ss[i + 1].window == NextWindow(cfg, ss[i], es[i])
  {}

  // ---------------------------------------------------------------- the window of a run

  /** What one event did to the window key. */
  function OpsOf(cfg: Config, h: Hash, e: Event): seq<Op> {
    (if e.Observe? then [Put(SampleOf(e))] else []) + (if Due(cfg, h, e.nowMs) then [Clear] else [])
  }

  /** What the first i events did to it. */
  function Ops(cfg: Config, ss: seq<Store>, es: seq<Event>, i: nat): seq<Op>
    requires i <= |es| && i <= |ss|
  {
    if i == 0 then [] else Ops(cfg, ss, es, i - 1) + OpsOf(cfg, ss[i - 1].hash, es[i - 1])
  }

  lemma AfterPut(ops: seq<Op>, op: Op, windowS: int)
    ensures After(ops + [op], windowS) ==
            match op
            case Put(s) => Recorded(After(ops, windowS), s, windowS)
            case Clear => EMPTY_WINDOW
  {
    assert (ops + [op])[..|ops|] == ops;
  }

  lemma WindowAfterEvent(cfg: Config, s: Store, e: Event, ops: seq<Op>)
    requires s.window == After(ops, cfg.windowS)
    ensures NextWindow(cfg, s, e) == After(ops + OpsOf(cfg, s.hash, e), cfg.windowS)
  {
    var here := OpsOf(cfg, s.hash, e);
    if |here| == 0 {
      assert ops + here == ops;
    } else if |here| == 1 {
      AfterPut(ops, here[0], cfg.windowS);
      assert here == [here[0]];
    } else {
      AfterPut(ops + [here[0]], here[1], cfg.windowS);
      assert ops + here == ops + [here[0]] + [here[1]];
    }
  }

  lemma {:induction false} WindowIsHistory(cfg: Config, ss: seq<Store>, es: seq<Event>, i: nat)
    requires IsRun(cfg, ss, es) && i < |ss|
    ensures ss[i].window == After(Ops(cfg, ss, es, i), cfg.windowS)
  {
    if i > 0 {
      WindowIsHistory(cfg, ss, es, i - 1);
      var bad := Decide(cfg, ss, es);
      DecidedStep(cfg, ss, es, bad, i - 1);
      WindowAfterEvent(cfg, ss[i - 1], es[i - 1], Ops(cfg, ss, es, i - 1));
    }
  }

  /** A read finds the samples written since the last clear that are young enough, and no others. */
  ghost predicate SeesEveryCall(w: Window, ops: seq<Op>, windowS: int, nowMs: int) {
    Punctual(ops, windowS) && Written(ops, nowMs) ==>
      Visible(w, windowS, nowMs) == Newer(Log(ops), nowMs - windowS * 1000)
  }

  /** What the breaker sees: in every run, a read of a provider's window finds every call observed
      since the circuit last went half-open, those too old left out, and no others. */
  lemma ReadsSeeEveryCall(cfg: Config, ss: seq<Store>, es: seq<Event>, i: nat, nowMs: int)
    requires cfg.Valid() && IsRun(cfg, ss, es) && i < |ss|
    ensures SeesEveryCall(ss[i].window, Ops(cfg, ss, es, i), cfg.windowS, nowMs)
  {
    WindowIsHistory(cfg, ss, es, i);
    StoredIsVisible(Ops(cfg, ss, es, i), cfg.windowS, nowMs);
  }

  lemma StoredIsVisible(ops: seq<Op>, windowS: int, nowMs: int)
    requires windowS > 0
    ensures SeesEveryCall(After(ops, windowS), ops, windowS, nowMs)
  {
    if Punctual(ops, windowS) && Written(ops, nowMs) {
      StoredIsSuffixOfLog(ops, windowS, nowMs);
      StoredIsTimely(ops, windowS, nowMs);
      VisibleIsNewer(After(ops, windowS), windowS, nowMs, nowMs);
    }
  }

  // ---------------------------------------------------------------- recovery

  /** Event j found the circuit open and due, and it has been half-open from then on, up to i. */
  ghost predicate ProbingSince(cfg: Config, ss: seq<Store>, es: seq<Event>, j: nat, i: nat) {
    && j < |es| <= |ss| && i < |ss|
    && Due(cfg, ss[j].hash, es[j].nowMs)
    && forall k :: j < k <= i ==> StateIn(ss[k].hash) == HalfOpen
  }

  /** What is known of a half-open circuit entered at event j. */
  ghost predicate ProbeLedger(cfg: Config, ss: seq<Store>, es: seq<Event>, j: nat, i: nat) {
    && j < i <= |es|
    && ProbingSince(cfg, ss, es, j, i)
    && CountIn(es, j, i, Success) == ProbesIn(ss[i].hash) < cfg.probeSuccessesRequired
    && CountIn(es, j, i, ProviderFault) == 0
    && Count(ss[i].window.members, ProviderFault) == 0
    && Count(ss[i].window.members, Success) <= ProbesIn(ss[i].hash)
  }

  /** A write adds at most the one sample it was called with. */
  lemma RecordedCount(w: Window, s: Sample, windowS: int, kind: Kind)
    ensures Count(Recorded(w, s, windowS).members, kind)
         <= Count(w.members, kind) + if KindOf(s.outcome) == kind then 1 else 0
  {
    var held := Live(w, s.atMs);
    CountAppend(held, s, kind);
    CountNewer(held + [s], s.atMs - windowS * 1000, kind);
  }

  /** The window after an observe holds at most one sample more of each kind. */
  lemma JudgedCount(cfg: Config, s: Store, e: Event, kind: Kind)
    requires e.Observe?
    ensures Count(Judged(cfg, s, e).members, kind)
         <= Count(s.window.members, kind) + if KindOf(e.outcome) == kind then 1 else 0
  {
    RecordedCount(s.window, SampleOf(e), cfg.windowS, kind);
  }

  /** How many outcomes of this kind one event records. */
  function One(e: Event, kind: Kind): nat {
    if e.Observe? && KindOf(e.outcome) == kind then 1 else 0
  }

  /** An event that leaves the circuit half-open found it half-open, or due; it recorded no
      failure, and the probe count moves by its successes alone. */
  lemma ProbeStep(cfg: Config, h: Hash, e: Event, bad: bool)
    requires cfg.Valid() && StateIn(NextHash(cfg, h, e, bad)) == HalfOpen
    ensures One(e, ProviderFault) == 0
    ensures ProbesIn(NextHash(cfg, h, e, bad)) == One(e, Success) + if Due(cfg, h, e.nowMs) then 0 else ProbesIn(h)
    ensures One(e, Success) == 1 || Due(cfg, h, e.nowMs) ==>
            ProbesIn(NextHash(cfg, h, e, bad)) < cfg.probeSuccessesRequired
    ensures !Due(cfg, h, e.nowMs) ==> StateIn(h) == HalfOpen
  {}

  /** The window gains at most the sample recorded, and a due circuit's is dropped with it. */
  lemma WindowStep(cfg: Config, s: Store, e: Event, kind: Kind)
    ensures Count(NextWindow(cfg, s, e).members, kind)
         <= if Due(cfg, s.hash, e.nowMs) then 0 else Count(s.window.members, kind) + One(e, kind)
  {
    if e.Observe? { JudgedCount(cfg, s, e, kind); }
  }

  /** In every run, a half-open circuit's probe count is the oks recorded since it was entered, and
      its window holds no failure. */
  lemma HalfOpenLedger(cfg: Config, ss: seq<Store>, es: seq<Event>, i: nat) returns (j: nat)
    requires cfg.Valid() && IsRun(cfg, ss, es) && i < |ss| && StateIn(ss[i].hash) == HalfOpen
    ensures ProbeLedger(cfg, ss, es, j, i)
  {
    var bad := Decide(cfg, ss, es);
    j := LedgerOfDecided(cfg, ss, es, bad, i);
  }

  lemma {:induction false} LedgerOfDecided(cfg: Config, ss: seq<Store>, es: seq<Event>, bad: seq<bool>, i: nat)
    returns (j: nat)
    requires cfg.Valid() && IsDecidedRun(cfg, ss, es, bad) && i < |ss|
    requires StateIn(ss[i].hash) == HalfOpen
    ensures ProbeLedger(cfg, ss, es, j, i)
  {
    var s, e := ss[i - 1], es[i - 1];
    DecidedStep(cfg, ss, es, bad, i - 1);
    ProbeStep(cfg, s.hash, e, bad[i - 1]);
    WindowStep(cfg, s, e, ProviderFault);
    WindowStep(cfg, s, e, Success);
    if Due(cfg, s.hash, e.nowMs) {
      j := i - 1;
    } else {
      j := LedgerOfDecided(cfg, ss, es, bad, i - 1);
    }
    CountOne(es, j, i, Success);
    CountOne(es, j, i, ProviderFault);
  }

  lemma CountOne(es: seq<Event>, from: nat, to: nat, kind: Kind)
    requires from < to <= |es|
    ensures CountIn(es, from, to, kind) == CountIn(es, from, to - 1, kind) + One(es[to - 1], kind)
    ensures CountIn(es, from, from, kind) == 0
  {}

  /** The circuit reopens for business at event i. */
  ghost predicate ClosesAt(ss: seq<Store>, i: nat) {
    i + 1 < |ss| && StateIn(ss[i].hash) != Closed && StateIn(ss[i + 1].hash) == Closed
  }

  /** A close at event i is earned since event j: the circuit went half-open at j, exactly
      probe_successes_required calls were recorded ok since, the last of them at i, and none failed. */
  ghost predicate Certificate(cfg: Config, ss: seq<Store>, es: seq<Event>, j: nat, i: nat) {
    && j <= i < |es| && |ss| == |es| + 1
    && ProbingSince(cfg, ss, es, j, i)
    && CountIn(es, j, i + 1, Success) == cfg.probeSuccessesRequired
    && CountIn(es, j, i + 1, ProviderFault) == 0
    && es[i].Observe? && IsOk(es[i].outcome)
  }

  /** Recovery: over every run, every transition to CLOSED has its certificate, and the window the
      circuit closes with holds no failure and no more successes than the probes. */
  lemma RecoveryCertificate(cfg: Config, ss: seq<Store>, es: seq<Event>, i: nat) returns (j: nat)
    requires cfg.Valid() && IsRun(cfg, ss, es) && ClosesAt(ss, i)
    ensures Certificate(cfg, ss, es, j, i)
    ensures Count(ss[i + 1].window.members, ProviderFault) == 0
    ensures Count(ss[i + 1].window.members, Success) <= cfg.probeSuccessesRequired
  {
    var bad := Decide(cfg, ss, es);
    j := CertificateOfDecided(cfg, ss, es, bad, i);
  }

  /** An event that closes the circuit records the last ok the requirement was short of. */
  lemma ClosingStep(cfg: Config, h: Hash, e: Event, bad: bool)
    requires cfg.Valid() && StateIn(h) != Closed && StateIn(NextHash(cfg, h, e, bad)) == Closed
    ensures One(e, Success) == 1 && One(e, ProviderFault) == 0
    ensures (if Due(cfg, h, e.nowMs) then 0 else ProbesIn(h)) + 1 >= cfg.probeSuccessesRequired
    ensures !Due(cfg, h, e.nowMs) ==> StateIn(h) == HalfOpen
  {}

  lemma CertificateOfDecided(cfg: Config, ss: seq<Store>, es: seq<Event>, bad: seq<bool>, i: nat) returns (j: nat)
    requires cfg.Valid() && IsDecidedRun(cfg, ss, es, bad) && ClosesAt(ss, i)
    ensures Certificate(cfg, ss, es, j, i)
    ensures Count(ss[i + 1].window.members, ProviderFault) == 0
    ensures Count(ss[i + 1].window.members, Success) <= cfg.probeSuccessesRequired
  {
    var s, e := ss[i], es[i];
    DecidedStep(cfg, ss, es, bad, i);
    ClosingStep(cfg, s.hash, e, bad[i]);
    WindowStep(cfg, s, e, ProviderFault);
    WindowStep(cfg, s, e, Success);
    if Due(cfg, s.hash, e.nowMs) {
      j := i;
    } else {
      j := LedgerOfDecided(cfg, ss, es, bad, i);
    }
    CountOne(es, j, i + 1, Success);
    CountOne(es, j, i + 1, ProviderFault);
  }

  // ---------------------------------------------------------------- evidence

  /** Closed at every index from c to i, where c is the start of the run or just after a close. */
  ghost predicate ClosedSince(ss: seq<Store>, c: nat, i: nat) {
    && c <= i < |ss|
    && (forall k :: c <= k <= i ==> StateIn(ss[k].hash) == Closed)
    && (c == 0 || ClosesAt(ss, c - 1))
  }

  /** The samples of this kind, each as often as it occurs. */
  function OfKind(samples: seq<Sample>, kind: Kind): multiset<Sample> {
    if samples == [] then multiset{}
    else
      var init, last := OfKind(samples[..|samples| - 1], kind), samples[|samples| - 1];
      if KindOf(last.outcome) == kind then init + multiset{last} else init
  }

  /** The sample of this kind one event records, if it does. */
  function SampleIn(e: Event, kind: Kind): multiset<Sample> {
    if One(e, kind) == 1 then multiset{SampleOf(e)} else multiset{}
  }

  /** The samples of this kind recorded by the events es[from..to]. */
  function NewSamples(es: seq<Event>, from: nat, to: nat, kind: Kind): multiset<Sample>
    requires to <= |es|
  {
    if to <= from then multiset{} else NewSamples(es, from, to - 1, kind) + SampleIn(es[to - 1], kind)
  }

  lemma {:induction false} OfKindCounts(samples: seq<Sample>, kind: Kind)
    ensures |OfKind(samples, kind)| == Count(samples, kind)
  {
    if samples != [] { OfKindCounts(samples[..|samples| - 1], kind); }
  }

  lemma OfKindAppend(samples: seq<Sample>, s: Sample, kind: Kind)
    ensures OfKind(samples + [s], kind)
         == OfKind(samples, kind) + if KindOf(s.outcome) == kind then multiset{s} else multiset{}
  {
    assert (samples + [s])[..|samples|] == samples;
  }

  lemma {:induction false} OfKindNewer(samples: seq<Sample>, cutoffMs: int, kind: Kind)
    ensures OfKind(Newer(samples, cutoffMs), kind) <= OfKind(samples, kind)
  {
    if samples != [] {
      var init, last := samples[..|samples| - 1], samples[|samples| - 1];
      OfKindNewer(init, cutoffMs, kind);
      OfKindAppend(Newer(init, cutoffMs), last, kind);
    }
  }

  /** An observe adds its own sample to the window and no other. */
  lemma JudgedSamples(cfg: Config, s: Store, e: Event, kind: Kind)
    requires e.Observe?
    ensures OfKind(Judged(cfg, s, e).members, kind) <= OfKind(s.window.members, kind) + SampleIn(e, kind)
  {
    var held := Live(s.window, e.recordedMs);
    OfKindAppend(held, SampleOf(e), kind);
    OfKindNewer(held + [SampleOf(e)], e.recordedMs - cfg.windowS * 1000, kind);
  }

  lemma WindowSamples(cfg: Config, s: Store, e: Event, kind: Kind)
    ensures OfKind(NextWindow(cfg, s, e).members, kind) <= OfKind(s.window.members, kind) + SampleIn(e, kind)
  {
    if e.Observe? { JudgedSamples(cfg, s, e, kind); }
  }

  /** These samples are evidence gathered since index c: each trippable failure is one recorded
      since then, and so is each ok call, except that the probes a circuit closed on, at most
      probe_successes_required of them, are older. */
  ghost predicate FreshSamples(cfg: Config, samples: seq<Sample>, es: seq<Event>, c: nat, i: nat)
    requires i <= |es|
  {
    && OfKind(samples, ProviderFault) <= NewSamples(es, c, i, ProviderFault)
    && |OfKind(samples, Success) - NewSamples(es, c, i, Success)| <= if c == 0 then 0 else cfg.probeSuccessesRequired
  }

  lemma LeftOver(before: multiset<Sample>, after: multiset<Sample>, known: multiset<Sample>, one: multiset<Sample>)
    requires after <= before + one
    ensures |after - (known + one)| <= |before - known|
  {
    assert after - (known + one) <= before - known;
    SubsetSmaller(after - (known + one), before - known);
  }

  lemma SubsetSmaller(a: multiset<Sample>, b: multiset<Sample>)
    requires a <= b
    ensures |a| <= |b|
  {
    assert b == a + (b - a);
  }

  /** The samples that stay fresh when one event is added, of those that were or are its own. */
  lemma FreshSamplesStep(cfg: Config, before: seq<Sample>, after: seq<Sample>, es: seq<Event>, c: nat, i: nat)
    requires c <= i < |es| && FreshSamples(cfg, before, es, c, i)
    requires forall kind :: OfKind(after, kind) <= OfKind(before, kind) + SampleIn(es[i], kind)
    ensures FreshSamples(cfg, after, es, c, i + 1)
  {
    assert NewSamples(es, c, i + 1, ProviderFault)
           == NewSamples(es, c, i, ProviderFault) + SampleIn(es[i], ProviderFault);
    assert NewSamples(es, c, i + 1, Success) == NewSamples(es, c, i, Success) + SampleIn(es[i], Success);
    LeftOver(OfKind(before, Success), OfKind(after, Success), NewSamples(es, c, i, Success), SampleIn(es[i], Success));
  }

  ghost predicate FreshWindow(cfg: Config, ss: seq<Store>, es: seq<Event>, c: nat, i: nat) {
    ClosedSince(ss, c, i) && i <= |es| && FreshSamples(cfg, ss[i].window.members, es, c, i)
  }

  /** No stale evidence: in every run, whenever the circuit is closed, every trippable failure in
      its window was recorded since it last closed (or since the start), and so was every ok call
      but the probes it closed on. */
  lemma NoStaleEvidence(cfg: Config, ss: seq<Store>, es: seq<Event>, i: nat) returns (c: nat)
    requires cfg.Valid() && IsRun(cfg, ss, es) && i < |ss|
    requires StateIn(ss[i].hash) == Closed
    ensures FreshWindow(cfg, ss, es, c, i)
  {
    var bad := Decide(cfg, ss, es);
    c := FreshnessOfDecided(cfg, ss, es, bad, i);
  }

  lemma {:induction false} FreshnessOfDecided(cfg: Config, ss: seq<Store>, es: seq<Event>, bad: seq<bool>, i: nat)
    returns (c: nat)
    requires cfg.Valid() && IsDecidedRun(cfg, ss, es, bad) && i < |ss|
    requires StateIn(ss[i].hash) == Closed
    ensures FreshWindow(cfg, ss, es, c, i)
  {
    if i == 0 {
      c := 0;
    } else if StateIn(ss[i - 1].hash) != Closed {
      c := i;
      FreshAfterClose(cfg, ss, es, bad, i);
    } else {
      c := FreshnessOfDecided(cfg, ss, es, bad, i - 1);
      FreshStep(cfg, ss, es, bad, c, i);
    }
  }

  lemma FreshAfterClose(cfg: Config, ss: seq<Store>, es: seq<Event>, bad: seq<bool>, i: nat)
    requires cfg.Valid() && IsDecidedRun(cfg, ss, es, bad) && 0 < i < |ss| && ClosesAt(ss, i - 1)
    ensures FreshWindow(cfg, ss, es, i, i)
  {
    var _ := CertificateOfDecided(cfg, ss, es, bad, i - 1);
    OfKindCounts(ss[i].window.members, ProviderFault);
    OfKindCounts(ss[i].window.members, Success);
  }

  lemma FreshStep(cfg: Config, ss: seq<Store>, es: seq<Event>, bad: seq<bool>, c: nat, i: nat)
    requires IsDecidedRun(cfg, ss, es, bad) && 0 < i < |ss| && FreshWindow(cfg, ss, es, c, i - 1)
    requires StateIn(ss[i].hash) == Closed
    ensures FreshWindow(cfg, ss, es, c, i)
  {
    var before, after := ss[i - 1].window.members, ss[i].window.members;
    StepSamples(cfg, ss, es, bad, i - 1);
    FreshSamplesStep(cfg, before, after, es, c, i - 1);
    assert ClosedSince(ss, c, i);
  }

  lemma StepSamples(cfg: Config, ss: seq<Store>, es: seq<Event>, bad: seq<bool>, i: nat)
    requires IsDecidedRun(cfg, ss, es, bad) && i < |es|
    ensures forall kind ::
              OfKind(ss[i + 1].window.members, kind) <= OfKind(ss[i].window.members, kind) + SampleIn(es[i], kind)
  {
    DecidedStep(cfg, ss, es, bad, i);
    forall kind ensures OfKind(ss[i + 1].window.members, kind)
                     <= OfKind(ss[i].window.members, kind) + SampleIn(es[i], kind) {
      WindowSamples(cfg, ss[i], es[i], kind);
    }
  }

  ghost predicate TripsAt(ss: seq<Store>, i: nat) {
    i + 1 < |ss| && StateIn(ss[i].hash) == Closed && StateIn(ss[i + 1].hash) == Open
  }

  /** The samples the breaker judges when it handles an observe. */
  function Seen(cfg: Config, s: Store, e: Event): seq<Sample>
    requires e.Observe?
  {
    Visible(Judged(cfg, s, e), cfg.windowS, e.nowMs)
  }

  lemma SeenSamples(cfg: Config, s: Store, e: Event, kind: Kind)
    requires e.Observe?
    ensures OfKind(Seen(cfg, s, e), kind) <= OfKind(s.window.members, kind) + SampleIn(e, kind)
  {
    JudgedSamples(cfg, s, e, kind);
    OfKindNewer(Live(Judged(cfg, s, e), e.nowMs), e.nowMs - cfg.windowS * 1000, kind);
  }

  lemma RateBound(part: nat, whole: nat, min: nat, threshold: real)
    requires 0.0 <= threshold && 1 <= min <= whole && Rate(part, whole, 0.0) > threshold
    ensures part as real > threshold * min as real
  {
    assert part as real > threshold * whole as real;
    assert threshold * whole as real >= threshold * min as real;
  }

  /** What an error-rate trip says about the counts it was decided on. */
  lemma ErrorRateCounts(cfg: Config, w: Window, nowMs: int)
    requires cfg.Valid() && ErrorRateTrips(cfg, w, nowMs)
    ensures Count(Visible(w, cfg.windowS, nowMs), ProviderFault) as real > cfg.errorThreshold * cfg.minSamples as real
  {
    var seen := Visible(w, cfg.windowS, nowMs);
    RateBound(Count(seen, ProviderFault), HealthSamples(seen), cfg.minSamples, cfg.errorThreshold);
  }

  lemma TripCounts(cfg: Config, s: Store, e: Event)
    requires JudgedBad(cfg, s, e)
    ensures Count(Seen(cfg, s, e), Success) + Count(Seen(cfg, s, e), ProviderFault) >= cfg.minSamples
  {}

  lemma RateAbove(part: nat, whole: nat, threshold: real)
    requires whole >= 1
    ensures Rate(part, whole, 0.0) > threshold <==> TooMany(part, whole, threshold)
  {
    var r := Rate(part, whole, 0.0);
    assert r * whole as real == part as real;
    assert r > threshold ==> r * whole as real > threshold * whole as real;
    assert r <= threshold ==> r * whole as real <= threshold * whole as real;
  }

  /** Enough calls that count, and either too many of them failed or they were too slow. */
  predicate Sick(cfg: Config, seen: seq<Sample>) {
    && HealthSamples(seen) >= cfg.minSamples
    && (TooMany(Count(seen, ProviderFault), HealthSamples(seen), cfg.errorThreshold)
        || PercentilesOf(HealthLatencies(seen)).p95 > cfg.latencyBudgetMs)
  }

  predicate TooMany(part: nat, whole: nat, share: real) {
    part as real > share * whole as real
  }

  lemma ErrorRateIff(samples: seq<Sample>, faults: nat, all: nat, threshold: real)
    requires faults == Count(samples, ProviderFault) && all == HealthSamples(samples) >= 1
    ensures Summary(samples).trippableErrorRate > threshold <==> TooMany(faults, all, threshold)
  {
    assert Summary(samples).trippableErrorRate == Rate(faults, all, 0.0);
    RateAbove(faults, all, threshold);
  }

  lemma TripsIff(cfg: Config, w: Window, nowMs: int)
    requires cfg.Valid()
    ensures Trips(cfg, w, nowMs) <==> Sick(cfg, Visible(w, cfg.windowS, nowMs))
  {
    var seen := Visible(w, cfg.windowS, nowMs);
    if HealthSamples(seen) >= cfg.minSamples {
      ErrorRateIff(seen, Count(seen, ProviderFault), HealthSamples(seen), cfg.errorThreshold);
    }
  }

  lemma OpensIfJudgedBad(cfg: Config, s: Store, e: Event)
    requires e.Observe? && StateIn(s.hash) == Closed
    ensures StateIn(Step(cfg, s, e).hash) == Open <==> Trips(cfg, Judged(cfg, s, e), e.nowMs)
  {
    StepByKey(cfg, s, e);
  }

  /** Exactly when a closed circuit opens on an observe: when what it then sees is sick. */
  lemma OpensIff(cfg: Config, s: Store, e: Event)
    requires cfg.Valid() && e.Observe? && StateIn(s.hash) == Closed
    ensures StateIn(Step(cfg, s, e).hash) == Open <==> Sick(cfg, Seen(cfg, s, e))
  {
    OpensIfJudgedBad(cfg, s, e);
    TripsIff(cfg, Judged(cfg, s, e), e.nowMs);
  }

  /** A trip rests on evidence gathered since the circuit last closed (or since the start): what
      the breaker sees when it trips is fresh. So an error-rate trip takes more than
      error_threshold * min_samples trippable failures recorded since, and any trip takes at least
      min_samples calls, all recorded since but the probes the circuit closed on. */
  lemma TripNeedsFreshEvidence(cfg: Config, ss: seq<Store>, es: seq<Event>, i: nat) returns (c: nat)
    requires cfg.Valid() && IsRun(cfg, ss, es) && TripsAt(ss, i)
    ensures ClosedSince(ss, c, i) && es[i].Observe?
    ensures FreshSamples(cfg, Seen(cfg, ss[i], es[i]), es, c, i + 1)
    ensures ErrorRateTrips(cfg, Judged(cfg, ss[i], es[i]), es[i].nowMs) ==>
              |NewSamples(es, c, i + 1, ProviderFault)| as real > cfg.errorThreshold * cfg.minSamples as real
    ensures |NewSamples(es, c, i + 1, ProviderFault)| + |NewSamples(es, c, i + 1, Success)|
            + (if c == 0 then 0 else cfg.probeSuccessesRequired) >= cfg.minSamples
  {
    var bad := Decide(cfg, ss, es);
    var s, e := ss[i], es[i];
    c := FreshnessOfDecided(cfg, ss, es, bad, i);
    TripIsDecided(cfg, ss, es, bad, i);
    var seen := Seen(cfg, s, e);
    forall kind ensures OfKind(seen, kind) <= OfKind(s.window.members, kind) + SampleIn(e, kind) {
      SeenSamples(cfg, s, e, kind);
    }
    FreshSamplesStep(cfg, s.window.members, seen, es, c, i);
    FreshCounts(cfg, seen, es, c, i + 1);
    TripCounts(cfg, s, e);
    if ErrorRateTrips(cfg, Judged(cfg, s, e), e.nowMs) {
      ErrorRateCounts(cfg, Judged(cfg, s, e), e.nowMs);
    }
  }

  lemma FreshCounts(cfg: Config, samples: seq<Sample>, es: seq<Event>, c: nat, i: nat)
    requires i <= |es| && FreshSamples(cfg, samples, es, c, i)
    ensures Count(samples, ProviderFault) <= |NewSamples(es, c, i, ProviderFault)|
    ensures Count(samples, Success)
         <= |NewSamples(es, c, i, Success)| + if c == 0 then 0 else cfg.probeSuccessesRequired
  {
    OfKindCounts(samples, ProviderFault);
    OfKindCounts(samples, Success);
    SubsetSmaller(OfKind(samples, ProviderFault), NewSamples(es, c, i, ProviderFault));
    var ok, known := OfKind(samples, Success), NewSamples(es, c, i, Success);
    assert ok == ok - known + ok * known;
    SubsetSmaller(ok * known, known);
  }

  lemma TripIsDecided(cfg: Config, ss: seq<Store>, es: seq<Event>, bad: seq<bool>, i: nat)
    requires IsDecidedRun(cfg, ss, es, bad) && TripsAt(ss, i)
    ensures es[i].Observe? && bad[i]
  {}

  // ---------------------------------------------------------------- spacing

  /** min(base * 2^k, max): the cooldown after k failed probes. */
  function Cooldown(cfg: Config, k: nat): real {
    if k == 0 then cfg.cooldownS else Doubled(cfg, Cooldown(cfg, k - 1))
  }

  lemma {:induction false} CooldownClosedForm(cfg: Config, k: nat)
    requires cfg.Valid()
    ensures var uncapped := cfg.cooldownS * Pow2(k) as real;
            && cfg.cooldownS <= uncapped
            && Cooldown(cfg, k) == if uncapped <= cfg.cooldownMaxS then uncapped else cfg.cooldownMaxS
  {
    if k > 0 {
      CooldownClosedForm(cfg, k - 1);
      assert Pow2(k) as real == 2.0 * Pow2(k - 1) as real;
      assert cfg.cooldownS * Pow2(k) as real == 2.0 * (cfg.cooldownS * Pow2(k - 1) as real);
    }
  }

  /** Each failed probe doubles the cooldown until it meets the cap. */
  lemma CooldownDoubles(cfg: Config, k: nat)
    ensures Cooldown(cfg, 0) == cfg.cooldownS
    ensures var twice := Cooldown(cfg, k) + Cooldown(cfg, k);
            Cooldown(cfg, k + 1) == if twice <= cfg.cooldownMaxS then twice else cfg.cooldownMaxS
  {}

  /** Cooldown(0) + ... + Cooldown(k - 1), in seconds. */
  function CooldownSum(cfg: Config, k: nat): real {
    if k == 0 then 0.0 else CooldownSum(cfg, k - 1) + Cooldown(cfg, k - 1)
  }

  ghost predicate MonotoneClock(es: seq<Event>) {
    forall i, j :: 0 <= i < j < |es| ==> es[i].nowMs <= es[j].nowMs
  }

  /** Event e is a failed probe: a trippable outcome recorded while the circuit reads half-open. */
  predicate FailedProbe(cfg: Config, h: Hash, e: Event) {
    e.Observe? && KindOf(e.outcome) == ProviderFault && (StateIn(h) == HalfOpen || Due(cfg, h, e.nowMs))
  }

  function FailedProbes(cfg: Config, ss: seq<Store>, es: seq<Event>, from: nat, to: nat): nat
    requires to <= |es| && to <= |ss|
  {
    if to <= from then 0
    else FailedProbes(cfg, ss, es, from, to - 1) + if FailedProbe(cfg, ss[to - 1].hash, es[to - 1]) then 1 else 0
  }

  /** One outage: the circuit trips at event t and has not been closed at any index up to i. */
  ghost predicate Outage(ss: seq<Store>, t: nat, i: nat) {
    && TripsAt(ss, t) && t < i < |ss|
    && forall k :: t < k <= i ==> StateIn(ss[k].hash) != Closed
  }

  /** What an outage that began at tripMs and saw f failed probes has come to by lastMs. */
  ghost predicate OutageFacts(cfg: Config, h: Hash, f: nat, tripMs: int, lastMs: int) {
    && StateIn(h) != Closed
    && CooldownIn(cfg, h) == Cooldown(cfg, f)
    && (StateIn(h) == Open ==>
          && h.openedAtMs.Some? && h.openedAtMs.value <= lastMs
          && Seconds(h.openedAtMs.value - tripMs) >= CooldownSum(cfg, f))
    && (StateIn(h) == HalfOpen ==> Seconds(lastMs - tripMs) >= CooldownSum(cfg, f + 1))
  }

  lemma OutageStep(cfg: Config, h: Hash, e: Event, trips: bool, f: nat, tripMs: int, lastMs: int)
    requires OutageFacts(cfg, h, f, tripMs, lastMs) && lastMs <= e.nowMs
    requires StateIn(NextHash(cfg, h, e, trips)) != Closed
    ensures OutageFacts(cfg, NextHash(cfg, h, e, trips), if FailedProbe(cfg, h, e) then f + 1 else f, tripMs, e.nowMs)
  {
    assert CooldownSum(cfg, f + 1) == CooldownSum(cfg, f) + Cooldown(cfg, f);
  }

  lemma OutageContinues(cfg: Config, ss: seq<Store>, es: seq<Event>, bad: seq<bool>, i: nat, f: nat, tripMs: int,
                        lastMs: int)
    requires IsDecidedRun(cfg, ss, es, bad) && i < |es| && lastMs <= es[i].nowMs
    requires OutageFacts(cfg, ss[i].hash, f, tripMs, lastMs) && StateIn(ss[i + 1].hash) != Closed
    ensures var f' := if FailedProbe(cfg, ss[i].hash, es[i]) then f + 1 else f;
            OutageFacts(cfg, ss[i + 1].hash, f', tripMs, es[i].nowMs)
  {
    DecidedStep(cfg, ss, es, bad, i);
    OutageStep(cfg, ss[i].hash, es[i], bad[i], f, tripMs, lastMs);
  }

  lemma OutageBegins(cfg: Config, ss: seq<Store>, es: seq<Event>, bad: seq<bool>, t: nat)
    requires IsDecidedRun(cfg, ss, es, bad) && TripsAt(ss, t)
    ensures OutageFacts(cfg, ss[t + 1].hash, 0, es[t].nowMs, es[t].nowMs)
  {
    DecidedStep(cfg, ss, es, bad, t);
  }

  /** Throughout an outage the stored cooldown is the base doubled once per failed probe and
      capped, and the clock has advanced by at least the cooldowns served so far. */
  lemma OutageLedger(cfg: Config, ss: seq<Store>, es: seq<Event>, t: nat, i: nat)
    requires IsRun(cfg, ss, es) && MonotoneClock(es) && Outage(ss, t, i)
    ensures OutageFacts(cfg, ss[i].hash, FailedProbes(cfg, ss, es, t + 1, i), es[t].nowMs, es[i - 1].nowMs)
  {
    var bad := Decide(cfg, ss, es);
    OutageOfDecided(cfg, ss, es, bad, t, i);
  }

  lemma {:induction false} OutageOfDecided(cfg: Config, ss: seq<Store>, es: seq<Event>, bad: seq<bool>, t: nat, i: nat)
    requires IsDecidedRun(cfg, ss, es, bad) && MonotoneClock(es) && Outage(ss, t, i)
    ensures OutageFacts(cfg, ss[i].hash, FailedProbes(cfg, ss, es, t + 1, i), es[t].nowMs, es[i - 1].nowMs)
  {
    if i == t + 1 {
      OutageBegins(cfg, ss, es, bad, t);
    } else {
      OutageOfDecided(cfg, ss, es, bad, t, i - 1);
      OutageContinues(cfg, ss, es, bad, i - 1, FailedProbes(cfg, ss, es, t + 1, i - 1), es[t].nowMs, es[i - 2].nowMs);
    }
  }

  /** Probe spacing: the n-th failed probe of an outage that began at event t is recorded no
      earlier than the first n cooldowns laid end to end, and leaves the cooldown doubled n times. */
  lemma ProbeSpacing(cfg: Config, ss: seq<Store>, es: seq<Event>, t: nat, i: nat)
    requires IsRun(cfg, ss, es) && MonotoneClock(es) && Outage(ss, t, i) && i < |es|
    requires FailedProbe(cfg, ss[i].hash, es[i])
    ensures var n := FailedProbes(cfg, ss, es, t + 1, i + 1);
            && n >= 1
            && Seconds(es[i].nowMs - es[t].nowMs) >= CooldownSum(cfg, n)
            && ss[i + 1].hash == OpenHash(es[i].nowMs, Cooldown(cfg, n))
  {
    var bad := Decide(cfg, ss, es);
    SpacingOfDecided(cfg, ss, es, bad, t, i);
  }

  lemma SpacingOfDecided(cfg: Config, ss: seq<Store>, es: seq<Event>, bad: seq<bool>, t: nat, i: nat)
    requires IsDecidedRun(cfg, ss, es, bad) && MonotoneClock(es) && Outage(ss, t, i) && i < |es|
    requires FailedProbe(cfg, ss[i].hash, es[i])
    ensures var n := FailedProbes(cfg, ss, es, t + 1, i + 1);
            && n >= 1
            && Seconds(es[i].nowMs - es[t].nowMs) >= CooldownSum(cfg, n)
            && ss[i + 1].hash == OpenHash(es[i].nowMs, Cooldown(cfg, n))
  {
    var f := FailedProbes(cfg, ss, es, t + 1, i);
    OutageOfDecided(cfg, ss, es, bad, t, i);
    DecidedStep(cfg, ss, es, bad, i);
    OutageStep(cfg, ss[i].hash, es[i], bad[i], f, es[t].nowMs, es[i - 1].nowMs);
  }

  /** Admission, exactly: a check lets the request through if and only if the circuit it leaves
      behind is closed, or is half-open and the draw falls below the probe ratio. */
  lemma AdmissionFollowsTheCircuit(cfg: Config, ss: seq<Store>, es: seq<Event>, i: nat)
    requires IsRun(cfg, ss, es) && i < |es| && es[i].Ask?
    ensures Admits(cfg, ss[i].hash, es[i].draw, es[i].nowMs)
       <==> || StateIn(ss[i + 1].hash) == Closed
            || (StateIn(ss[i + 1].hash) == HalfOpen && es[i].draw < cfg.probeRatio)
  {
    assert ss[i + 1] == Step(cfg, ss[i], es[i]);
  }

  /** A read reports the circuit as it leaves it, and when it was last opened. */
  lemma ReadReportsTheCircuit(cfg: Config, s: Store, nowMs: int)
    ensures var circuit, after := CircuitAt(cfg, s.hash, nowMs), Refreshed(cfg, s, nowMs);
            && circuit.state == StateIn(after.hash)
            && circuit.cooldownS == CooldownIn(cfg, after.hash) == CooldownIn(cfg, s.hash)
            && circuit.probeSuccesses == ProbesIn(after.hash)
            && circuit.openedAtMs == s.hash.openedAtMs
  {}

  /** A read turns a circuit half-open exactly when it is open and the clock shows its cooldown, in
      milliseconds, to be over; otherwise it changes nothing. */
  lemma HalfOpensIff(cfg: Config, s: Store, openedMs: int, nowMs: int)
    requires StateIn(s.hash) == Open && s.hash.openedAtMs == Some(openedMs)
    ensures var over := (nowMs - openedMs) as real >= 1000.0 * CooldownIn(cfg, s.hash);
            && (StateIn(Refreshed(cfg, s, nowMs).hash) == HalfOpen <==> over)
            && (!over ==> Refreshed(cfg, s, nowMs) == s)
  {
    assert Seconds(nowMs - openedMs) * 1000.0 == (nowMs - openedMs) as real;
  }

  /** What the caller is told is exact: an open circuit that is not yet due turns half-open for a
      reader exactly retry_in_s after the reading that reported it. */
  lemma RetryInIsExact(cfg: Config, h: Hash, nowMs: int, laterMs: int)
    requires StateIn(h) == Open && h.openedAtMs.Some? && !Due(cfg, h, nowMs)
    ensures CircuitAt(cfg, h, nowMs).retryInS > 0.0
    ensures CircuitAt(cfg, h, laterMs).state == HalfOpen
            <==> Seconds(laterMs - nowMs) >= CircuitAt(cfg, h, nowMs).retryInS
  {}

  /** Quarantine: until its cooldown is over an open circuit admits nobody, and no record, however
      many arrive, changes it. */
  lemma QuarantineHolds(cfg: Config, ss: seq<Store>, es: seq<Event>, i: nat, k: nat, openedMs: int)
    requires IsRun(cfg, ss, es) && i <= k < |ss|
    requires StateIn(ss[i].hash) == Open && ss[i].hash.openedAtMs == Some(openedMs)
    requires forall m :: i <= m < |es| && m <= k ==> Seconds(es[m].nowMs - openedMs) < CooldownIn(cfg, ss[i].hash)
    ensures ss[k].hash == ss[i].hash
    ensures k < |es| && es[k].Ask? ==> !Admits(cfg, ss[k].hash, es[k].draw, es[k].nowMs)
  {
    var bad := Decide(cfg, ss, es);
    QuarantineOfDecided(cfg, ss, es, bad, i, k, openedMs);
  }

  lemma {:induction false} QuarantineOfDecided(cfg: Config, ss: seq<Store>, es: seq<Event>, bad: seq<bool>, i: nat,
                                               k: nat, openedMs: int)
    requires IsDecidedRun(cfg, ss, es, bad) && i <= k < |ss|
    requires StateIn(ss[i].hash) == Open && ss[i].hash.openedAtMs == Some(openedMs)
    requires forall m :: i <= m < |es| && m <= k ==> Seconds(es[m].nowMs - openedMs) < CooldownIn(cfg, ss[i].hash)
    ensures ss[k].hash == ss[i].hash
    ensures k < |es| && es[k].Ask? ==> !Admits(cfg, ss[k].hash, es[k].draw, es[k].nowMs)
  {
    if i < k {
      QuarantineOfDecided(cfg, ss, es, bad, i, k - 1, openedMs);
    }
  }
}
