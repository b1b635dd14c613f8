/** The breaker at the granularity of single Redis commands. Its reads and writes are not guarded
    by WATCH, so the commands of many requests interleave freely; requests may also be cancelled
    between any two of them. */
module BreakerInterleaving {
  import opened Outcomes
  import opened Health
  import opened Breaker
  import opened BreakerRuns

  /** Why a request is reading the circuit. */
  datatype Task = Fold(outcome: Outcome) | Peek

  /** The command a request will send next. */
  datatype Pc =
    | Reading(task: Task, nowMs: int)
    | EnteringHalfOpen(task: Task, cooldownS: real, nowMs: int)
    | DroppingWindow(task: Task, cooldownS: real, nowMs: int)
    | Judging(nowMs: int)
    | Writing(hash: Hash)
    | WritingProbes(probes: int)

  datatype Sys = Sys(store: Store, procs: map<nat, Pc>)

  datatype Action =
    | BeginObserve(pid: nat, outcome: Outcome, latencyMs: real, recordedMs: int, nowMs: int)
    | BeginPeek(pid: nat, nowMs: int)
    | Advance(pid: nat)
    | Cancel(pid: nat)

  const START := Sys(FRESH, map[])

  /** What a request does with the circuit it believes it is looking at. */
  function AfterRead(cfg: Config, task: Task, circuit: Circuit, nowMs: int): Option<Pc> {
    if task.Peek? then None
    else
      match circuit.state
      case Open => None
      case Closed => Some(Judging(nowMs))
      case HalfOpen =>
        match KindOf(task.outcome)
        case Success =>
          var successes := circuit.probeSuccesses + 1;
          if successes < cfg.probeSuccessesRequired then Some(WritingProbes(successes))
          else Some(Writing(ClosedHash(cfg)))
        case ProviderFault => Some(Writing(OpenHash(nowMs, Doubled(cfg, circuit.cooldownS))))
        case CallerFault => None
  }

  /** Runs one command; None means the request has no command left. */
  function Command(cfg: Config, s: Store, pc: Pc): (Store, Option<Pc>) {
    match pc
    case Reading(task, nowMs) =>
      if Due(cfg, s.hash, nowMs) then (s, Some(EnteringHalfOpen(task, CooldownIn(cfg, s.hash), nowMs)))
      else (s, AfterRead(cfg, task, CircuitAt(cfg, s.hash, nowMs), nowMs))
    case EnteringHalfOpen(task, cooldownS, nowMs) =>
      (s.(hash := HalfOpenHash(cooldownS)), Some(DroppingWindow(task, cooldownS, nowMs)))
    case DroppingWindow(task, cooldownS, nowMs) =>
      (s.(window := EMPTY_WINDOW), AfterRead(cfg, task, Circuit(HalfOpen, None, cooldownS, 0, 0.0), nowMs))
    case Judging(nowMs) =>
      (s, if Trips(cfg, s.window, nowMs) then Some(Writing(OpenHash(nowMs, cfg.cooldownS))) else None)
    case Writing(hash) => (s.(hash := hash), None)
    case WritingProbes(probes) => (s.(hash := s.hash.(probeSuccesses := Some(probes))), None)
  }

  /** An action that is not possible changes nothing. */
  function Next(cfg: Config, sys: Sys, a: Action): Sys {
    match a
    case BeginObserve(pid, outcome, latencyMs, recordedMs, nowMs) =>
      if pid in sys.procs then sys
      else
        Sys(sys.store.(window := Recorded(sys.store.window, Sample(recordedMs, outcome, latencyMs), cfg.windowS)),
            sys.procs[pid := Reading(Fold(outcome), nowMs)])
    case BeginPeek(pid, nowMs) =>
      if pid in sys.procs then sys else sys.(procs := sys.procs[pid := Reading(Peek, nowMs)])
    case Advance(pid) =>
      if pid !in sys.procs then sys
      else
        var (store, pc) := Command(cfg, sys.store, sys.procs[pid]);
        Sys(store, if pc.Some? then sys.procs[pid := pc.value] else sys.procs - {pid})
    case Cancel(pid) =>
      sys.(procs := sys.procs - {pid})
  }

  ghost predicate IsInterleaving(cfg: Config, ss: seq<Sys>, acts: seq<Action>) {
    && |ss| == |acts| + 1
    && ss[0] == START
    && forall i :: 0 <= i < |acts| ==> ss[i + 1] == Next(cfg, ss[i], acts[i])
  }

  /** min(base * 2^k, max) for some k. */
  ghost predicate OnLadder(cfg: Config, cooldownS: real) {
    exists k: nat :: cooldownS == Cooldown(cfg, k)
  }

  ghost predicate WellFormed(cfg: Config, h: Hash) {
    && (StateIn(h) == Open <==> h.openedAtMs.Some?)
    && (StateIn(h) == Closed ==> CooldownIn(cfg, h) == cfg.cooldownS)
    && OnLadder(cfg, CooldownIn(cfg, h))
    && 0 <= ProbesIn(h) < cfg.probeSuccessesRequired
  }

  /** What a request is about to write is sound whatever the others did since it read. */
  ghost predicate Sound(cfg: Config, pc: Pc) {
    match pc
    case Reading(_, _) => true
    case EnteringHalfOpen(_, cooldownS, _) => OnLadder(cfg, cooldownS)
    case DroppingWindow(_, cooldownS, _) => OnLadder(cfg, cooldownS)
    case Judging(_) => true
    case Writing(hash) => hash.state.Some? && hash.cooldownS.Some? && WellFormed(cfg, hash)
    case WritingProbes(probes) => 0 <= probes < cfg.probeSuccessesRequired
  }

  lemma BaseOnLadder(cfg: Config)
    ensures OnLadder(cfg, cfg.cooldownS)
  {
    assert Cooldown(cfg, 0) == cfg.cooldownS;
  }

  lemma DoubledOnLadder(cfg: Config, cooldownS: real)
    requires OnLadder(cfg, cooldownS)
    ensures OnLadder(cfg, Doubled(cfg, cooldownS))
  {
    var k: nat :| cooldownS == Cooldown(cfg, k);
    assert Cooldown(cfg, k + 1) == Doubled(cfg, cooldownS);
  }

  lemma AfterReadSound(cfg: Config, task: Task, circuit: Circuit, nowMs: int)
    requires cfg.Valid() && OnLadder(cfg, circuit.cooldownS) && 0 <= circuit.probeSuccesses
    ensures var pc := AfterRead(cfg, task, circuit, nowMs); pc.Some? ==> Sound(cfg, pc.value)
  {
    BaseOnLadder(cfg);
    DoubledOnLadder(cfg, circuit.cooldownS);
  }

  lemma CommandSound(cfg: Config, s: Store, pc: Pc)
    requires cfg.Valid() && WellFormed(cfg, s.hash) && Sound(cfg, pc)
    ensures var (s', pc') := Command(cfg, s, pc);
            WellFormed(cfg, s'.hash) && (pc'.Some? ==> Sound(cfg, pc'.value))
  {
    BaseOnLadder(cfg);
    match pc
    case Reading(task, nowMs) => AfterReadSound(cfg, task, CircuitAt(cfg, s.hash, nowMs), nowMs);
    case DroppingWindow(task, cooldownS, nowMs) =>
      AfterReadSound(cfg, task, Circuit(HalfOpen, None, cooldownS, 0, 0.0), nowMs);
    case _ =>
  }

  /** Whatever the interleaving, and whatever clocks the requests read, the stored circuit stays
      well formed: OPEN exactly when an opening time is set, CLOSED with the base cooldown, every
      cooldown a capped doubling of the base, probe successes below the requirement. */
  lemma {:induction false} CircuitStaysWellFormed(cfg: Config, ss: seq<Sys>, acts: seq<Action>, i: nat)
    requires cfg.Valid() && IsInterleaving(cfg, ss, acts) && i < |ss|
    ensures WellFormed(cfg, ss[i].store.hash)
    ensures forall pid :: pid in ss[i].procs ==> Sound(cfg, ss[i].procs[pid])
  {
    if i == 0 {
      BaseOnLadder(cfg);
    } else {
      CircuitStaysWellFormed(cfg, ss, acts, i - 1);
      var sys, a := ss[i - 1], acts[i - 1];
      if a.Advance? && a.pid in sys.procs {
        CommandSound(cfg, sys.store, sys.procs[a.pid]);
      }
    }
  }

  /** A request's next n commands with nobody else running. */
  function Solo(cfg: Config, s: Store, pc: Option<Pc>, n: nat): (Store, Option<Pc>)
    decreases n
  {
    if n == 0 || pc.None? then (s, pc)
    else
      var (s', pc') := Command(cfg, s, pc.value);
      Solo(cfg, s', pc', n - 1)
  }

  /** After the read, a request needs at most two more commands. */
  lemma SoloAfterRead(cfg: Config, s: Store, outcome: Outcome, circuit: Circuit, nowMs: int, n: nat)
    requires n >= 2 && circuit.state == StateIn(s.hash)
    requires circuit.cooldownS == CooldownIn(cfg, s.hash) && circuit.probeSuccesses == ProbesIn(s.hash)
    requires !Due(cfg, s.hash, nowMs)
    ensures Solo(cfg, s, AfterRead(cfg, Fold(outcome), circuit, nowMs), n) == (Folded(cfg, s, outcome, nowMs), None)
  {
    if StateIn(s.hash) == Closed && Trips(cfg, s.window, nowMs) {
      var h := OpenHash(nowMs, cfg.cooldownS);
      assert Solo(cfg, s, Some(Writing(h)), n - 1) == (s.(hash := h), None);
    }
  }

  lemma SoloFold(cfg: Config, s: Store, outcome: Outcome, nowMs: int)
    ensures Solo(cfg, s, Some(Reading(Fold(outcome), nowMs)), 5) == (Folded(cfg, s, outcome, nowMs), None)
  {
    if Due(cfg, s.hash, nowMs) {
      var cooldownS := CooldownIn(cfg, s.hash);
      var r := Store(HalfOpenHash(cooldownS), EMPTY_WINDOW);
      var task := Fold(outcome);
      assert Solo(cfg, s, Some(Reading(task, nowMs)), 5)
             == Solo(cfg, s, Some(EnteringHalfOpen(task, cooldownS, nowMs)), 4);
      assert Solo(cfg, s, Some(EnteringHalfOpen(task, cooldownS, nowMs)), 4)
          == Solo(cfg, s.(hash := r.hash), Some(DroppingWindow(task, cooldownS, nowMs)), 3);
      SoloAfterRead(cfg, r, outcome, Circuit(HalfOpen, None, cooldownS, 0, 0.0), nowMs, 2);
    } else {
      SoloAfterRead(cfg, s, outcome, CircuitAt(cfg, s.hash, nowMs), nowMs, 4);
    }
  }

  /** n times the same request. */
  function Advances(cfg: Config, sys: Sys, pid: nat, n: nat): Sys
    decreases n
  {
    if n == 0 then sys else Advances(cfg, Next(cfg, sys, Advance(pid)), pid, n - 1)
  }

  lemma {:induction false} AdvancesAreSolo(cfg: Config, others: map<nat, Pc>, s: Store, pid: nat, pc: Option<Pc>,
                                           n: nat)
    requires pid !in others
    requires Solo(cfg, s, pc, n).1 == None
    ensures Advances(cfg, Sys(s, if pc.Some? then others[pid := pc.value] else others), pid, n)
         == Sys(Solo(cfg, s, pc, n).0, others)
    decreases n
  {
    if n > 0 {
      if pc.Some? {
        var (s', pc') := Command(cfg, s, pc.value);
        assert others[pid := pc.value] - {pid} == others;
        if pc'.Some? {
          assert others[pid := pc.value][pid := pc'.value] == others[pid := pc'.value];
        }
        AdvancesAreSolo(cfg, others, s', pid, pc', n - 1);
      } else {
        AdvancesAreSolo(cfg, others, s, pid, pc, n - 1);
      }
    }
  }

  /** The two granularities agree: a request whose commands nobody interrupts is exactly one
      atomic observe. */
  lemma UninterruptedObserve(cfg: Config, sys: Sys, pid: nat, outcome: Outcome, latencyMs: real, recordedMs: int,
                             nowMs: int)
    requires pid !in sys.procs
    ensures Advances(cfg, Next(cfg, sys, BeginObserve(pid, outcome, latencyMs, recordedMs, nowMs)), pid, 5)
         == Sys(Observed(cfg, sys.store, outcome, latencyMs, recordedMs, nowMs), sys.procs)
  {
    var s := sys.store.(window := Recorded(sys.store.window, Sample(recordedMs, outcome, latencyMs), cfg.windowS));
    SoloFold(cfg, s, outcome, nowMs);
    AdvancesAreSolo(cfg, sys.procs, s, pid, Some(Reading(Fold(outcome), nowMs)), 5);
  }

  /** And so is a mere read. */
  lemma UninterruptedPeek(cfg: Config, sys: Sys, pid: nat, nowMs: int)
    requires pid !in sys.procs
    ensures Advances(cfg, Next(cfg, sys, BeginPeek(pid, nowMs)), pid, 3)
         == Sys(Refreshed(cfg, sys.store, nowMs), sys.procs)
  {
    AdvancesAreSolo(cfg, sys.procs, sys.store, pid, Some(Reading(Peek, nowMs)), 3);
  }
}
