/** The per-provider circuit breaker (gateway/breaker.py) over its Redis hash and the provider's
    health window, and the router's observe step that feeds both (gateway/router.py). */
module Breaker {
  import opened Outcomes
  import opened Health

  datatype State = Closed | Open | HalfOpen

  /** The hash as stored. A missing field and an empty string read alike, as None. */
  datatype Hash = Hash(
    state: Option<State>,
    openedAtMs: Option<int>,
    cooldownS: Option<real>,
    probeSuccesses: Option<int>)

  const NO_HASH := Hash(None, None, None, None)

  /** One provider's circuit, as state_of reports it. */
  datatype Circuit = Circuit(
    state: State,
    openedAtMs: Option<int>,
    cooldownS: real,
    probeSuccesses: int,
    retryInS: real)

  /** The breaker section of the configuration, the window length, and one provider's budget. */
  datatype Config = Config(
    errorThreshold: real,
    minSamples: nat,
    cooldownS: real,
    cooldownMaxS: real,
    probeRatio: real,
    probeSuccessesRequired: nat,
    windowS: int,
    latencyBudgetMs: real)
  {
    ghost predicate Valid() {
      && 0.0 <= errorThreshold
      && 1 <= minSamples
      && 0.0 < cooldownS <= cooldownMaxS
      && 1 <= probeSuccessesRequired
      && 0 < windowS
    }
  }

  /** Both keys a provider owns in Redis. */
  datatype Store = Store(hash: Hash, window: Window)

  const FRESH := Store(NO_HASH, EMPTY_WINDOW)

  // ---------------------------------------------------------------- reading

  function StateIn(h: Hash): State {
    if h.state.Some? then h.state.value else Closed
  }

  function CooldownIn(cfg: Config, h: Hash): real {
    if h.cooldownS.Some? then h.cooldownS.value else cfg.cooldownS
  }

  function ProbesIn(h: Hash): int {
    if h.probeSuccesses.Some? then h.probeSuccesses.value else 0
  }

  function Seconds(ms: int): real { ms as real / 1000.0 }

  /** An open circuit whose cooldown has run out. */
  predicate Due(cfg: Config, h: Hash, nowMs: int) {
    && StateIn(h) == Open
    && h.openedAtMs.Some?
    && Seconds(nowMs - h.openedAtMs.value) >= CooldownIn(cfg, h)
  }

  function HalfOpenHash(cooldownS: real): Hash {
    Hash(Some(HalfOpen), None, Some(cooldownS), Some(0))
  }

  function OpenHash(nowMs: int, cooldownS: real): Hash {
    Hash(Some(Open), Some(nowMs), Some(cooldownS), Some(0))
  }

  function ClosedHash(cfg: Config): Hash {
    Hash(Some(Closed), None, Some(cfg.cooldownS), Some(0))
  }

  /** What a read leaves behind: a due circuit goes half-open and its window is dropped. */
  function Refreshed(cfg: Config, s: Store, nowMs: int): Store {
    if Due(cfg, s.hash, nowMs) then Store(HalfOpenHash(CooldownIn(cfg, s.hash)), EMPTY_WINDOW) else s
  }

  /** What a read reports. The opening time is the one stored before the read. */
  function CircuitAt(cfg: Config, h: Hash, nowMs: int): Circuit {
    if Due(cfg, h, nowMs) then
      Circuit(HalfOpen, h.openedAtMs, CooldownIn(cfg, h), 0, 0.0)
    else
      Circuit(StateIn(h), h.openedAtMs, CooldownIn(cfg, h), ProbesIn(h),
              if StateIn(h) == Open && h.openedAtMs.Some?
              then CooldownIn(cfg, h) - Seconds(nowMs - h.openedAtMs.value) else 0.0)
  }

  /** Whether a request may be routed here; draw is the value of random.random(). */
  predicate Admits(cfg: Config, h: Hash, draw: real, nowMs: int) {
    match CircuitAt(cfg, h, nowMs).state
    case Closed => true
    case Open => false
    case HalfOpen => draw < cfg.probeRatio
  }

  // ---------------------------------------------------------------- recording

  predicate ErrorRateTrips(cfg: Config, w: Window, nowMs: int) {
    var snap := Summary(Visible(w, cfg.windowS, nowMs));
    snap.healthSamples >= cfg.minSamples && snap.trippableErrorRate > cfg.errorThreshold
  }

  predicate LatencyTrips(cfg: Config, w: Window, nowMs: int) {
    var snap := Summary(Visible(w, cfg.windowS, nowMs));
    snap.healthSamples >= cfg.minSamples && snap.percentiles.p95 > cfg.latencyBudgetMs
  }

  predicate Trips(cfg: Config, w: Window, nowMs: int) {
    ErrorRateTrips(cfg, w, nowMs) || LatencyTrips(cfg, w, nowMs)
  }

  function Doubled(cfg: Config, cooldownS: real): real {
    if cooldownS * 2.0 <= cfg.cooldownMaxS then cooldownS * 2.0 else cfg.cooldownMaxS
  }

  /** A half-open circuit after one probe result. */
  function Probed(cfg: Config, h: Hash, outcome: Outcome, nowMs: int): Hash {
    match KindOf(outcome)
    case Success =>
      if ProbesIn(h) + 1 < cfg.probeSuccessesRequired then h.(probeSuccesses := Some(ProbesIn(h) + 1))
      else ClosedHash(cfg)
    case ProviderFault => OpenHash(nowMs, Doubled(cfg, CooldownIn(cfg, h)))
    case CallerFault => h
  }

  /** breaker.record run without interruption. */
  function Folded(cfg: Config, s: Store, outcome: Outcome, nowMs: int): Store {
    var r := Refreshed(cfg, s, nowMs);
    match StateIn(r.hash)
    case HalfOpen => r.(hash := Probed(cfg, r.hash, outcome, nowMs))
    case Closed => if Trips(cfg, r.window, nowMs) then r.(hash := OpenHash(nowMs, cfg.cooldownS)) else r
    case Open => r
  }

  /** router._observe run without interruption: the window first, then the circuit. */
  function Observed(cfg: Config, s: Store, outcome: Outcome, latencyMs: real, recordedMs: int, nowMs: int): Store {
    Folded(cfg, s.(window := Recorded(s.window, Sample(recordedMs, outcome, latencyMs), cfg.windowS)), outcome, nowMs)
  }

  // ---------------------------------------------------------------- the stateful breaker

  class CircuitBreaker {
    const cfg: Config
    const window: HealthWindow
    var hash: Hash

    ghost predicate Valid() {
      window.windowS == cfg.windowS
    }

    ghost function View(): Store
      reads this, window
    {
      Store(hash, window.View())
    }

    constructor (cfg: Config)
      ensures Valid() && fresh(window) && this.cfg == cfg && View() == FRESH
    {
      var w := new HealthWindow(cfg.windowS);
      this.cfg := cfg;
      window := w;
      hash := NO_HASH;
    }

    /** Current state, entering half-open if the cooldown ran out. */
    method StateOf(nowMs: int) returns (circuit: Circuit)
      requires Valid()
      modifies this, window
      ensures View() == Refreshed(cfg, old(View()), nowMs)
      ensures circuit == CircuitAt(cfg, old(hash), nowMs)
    {
      var state := if hash.state.Some? then hash.state.value else Closed;
      var openedAtMs := hash.openedAtMs;
      var cooldownS := if hash.cooldownS.Some? then hash.cooldownS.value else cfg.cooldownS;
      var probeSuccesses := if hash.probeSuccesses.Some? then hash.probeSuccesses.value else 0;
      var retryInS := 0.0;

      if state == Open && openedAtMs.Some? {
        var elapsedS := (nowMs - openedAtMs.value) as real / 1000.0;
        if elapsedS >= cooldownS {
          EnterHalfOpen(cooldownS);
          state, probeSuccesses := HalfOpen, 0;
        } else {
          retryInS := cooldownS - elapsedS;
        }
      }
      circuit := Circuit(state, openedAtMs, cooldownS, probeSuccesses, retryInS);
    }

    /** The admission check. It reads through StateOf, so it may itself turn a due circuit half-open. */
    method Allows(draw: real, nowMs: int) returns (admitted: bool)
      requires Valid()
      modifies this, window
      ensures View() == Refreshed(cfg, old(View()), nowMs)
      ensures admitted == Admits(cfg, old(hash), draw, nowMs)
    {
      var circuit := StateOf(nowMs);
      match circuit.state
      case Closed => admitted := true;
      case Open => admitted := false;
      case HalfOpen => admitted := draw < cfg.probeRatio;
    }

    /** Take a finished call into account: as a probe while half-open, as evidence while closed. */
    method Record(outcome: Outcome, nowMs: int)
      requires Valid()
      modifies this, window
      ensures View() == Folded(cfg, old(View()), outcome, nowMs)
    {
      var circuit := StateOf(nowMs);
      if circuit.state == HalfOpen {
        RecordProbe(outcome, circuit, nowMs);
      } else if circuit.state == Closed {
        MaybeTrip(nowMs);
      }
    }

    method MaybeTrip(nowMs: int)
      requires Valid()
      modifies this
      ensures hash == if Trips(cfg, window.View(), nowMs) then OpenHash(nowMs, cfg.cooldownS) else old(hash)
    {
      var snap := window.Snapshot(nowMs);
      if snap.healthSamples < cfg.minSamples {
        return;
      }
      if snap.trippableErrorRate <= cfg.errorThreshold && snap.percentiles.p95 <= cfg.latencyBudgetMs {
        return;
      }
      OpenCircuit(nowMs, cfg.cooldownS);
    }

    method RecordProbe(outcome: Outcome, circuit: Circuit, nowMs: int)
      requires Valid()
      requires circuit.cooldownS == CooldownIn(cfg, hash) && circuit.probeSuccesses == ProbesIn(hash)
      modifies this
      ensures hash == Probed(cfg, old(hash), outcome, nowMs)
    {
      if IsOk(outcome) {
        var successes := circuit.probeSuccesses + 1;
        if successes < cfg.probeSuccessesRequired {
          hash := hash.(probeSuccesses := Some(successes));
          return;
        }
        hash := Hash(Some(Closed), None, Some(cfg.cooldownS), Some(0));
        return;
      }
      if !IsTrippable(outcome) {
        return;
      }
      var doubledS := circuit.cooldownS * 2.0;
      var cooldownS := if doubledS <= cfg.cooldownMaxS then doubledS else cfg.cooldownMaxS;
      OpenCircuit(nowMs, cooldownS);
    }

    method OpenCircuit(nowMs: int, cooldownS: real)
      modifies this
      ensures hash == OpenHash(nowMs, cooldownS)
    {
      hash := Hash(Some(Open), Some(nowMs), Some(cooldownS), Some(0));
    }

    method EnterHalfOpen(cooldownS: real)
      modifies this, window
      ensures View() == Store(HalfOpenHash(cooldownS), EMPTY_WINDOW)
    {
      hash := Hash(Some(HalfOpen), None, Some(cooldownS), Some(0));
      window.Clear();
    }

    /** Record one finished call in both stores, as the router does after every attempt. */
    method Observe(outcome: Outcome, latencyMs: real, recordedMs: int, nowMs: int)
      requires Valid()
      modifies this, window
      ensures View() == Observed(cfg, old(View()), outcome, latencyMs, recordedMs, nowMs)
    {
      window.Record(outcome, latencyMs, recordedMs);
      Record(outcome, nowMs);
    }
  }
}
