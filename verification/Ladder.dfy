/** The ladder walk and its hedged start over real circuits: router.route asking breaker.allows
    before each call and observing each call in its provider's stores. */
module Ladder {
  import opened Outcomes
  import opened Breaker
  import opened Router
  import opened RouterProofs
  import Runs = BreakerRuns

  /** What the environment supplies for one rung of the walk: the random draw and clock of the
      admission check, and the outcome, latency and clocks of the call if it is made. */
  datatype Env = Env(draw: real, askMs: int, outcome: Outcome, latencyMs: real, recordedMs: int, nowMs: int)

  /** The draw and clock of the admission check before a race. */
  datatype Ask = Ask(draw: real, nowMs: int)

  /** Every circuit is set up, and no two of them share a window. A ladder may name a provider more
      than once; then its rungs share one circuit. */
  ghost predicate Wired(ladder: seq<CircuitBreaker>, keys: set<object>) {
    && (forall c :: c in ladder ==> c in keys && c.window in keys)
    && (forall c :: c in ladder ==> c.Valid())
    && (forall c, d :: c in ladder && d in ladder && c != d ==> c.window != d.window)
  }

  type Stores = map<CircuitBreaker, Store>

  /** A provider nobody has recorded anything about has empty stores. */
  ghost function At(ss: Stores, c: CircuitBreaker): Store {
    if c in ss then ss[c] else FRESH
  }

  /** What each provider's stores hold now. */
  ghost function Views(ladder: seq<CircuitBreaker>): Stores
    reads ladder, set c | c in ladder :: c.window
  {
    map c | c in ladder :: c.View()
  }

  // ---------------------------------------------------------------- the stores as the walk goes on

  /** The first n rungs have been asked before a race, in order. */
  ghost function AskedBy(ladder: seq<CircuitBreaker>, asks: seq<Ask>, ss: Stores, n: nat): Stores
    requires |asks| == |ladder|
  {
    if n == 0 || n > |ladder| then ss
    else
      var c, before := ladder[n - 1], AskedBy(ladder, asks, ss, n - 1);
      before[c := Refreshed(c.cfg, At(before, c), asks[n - 1].nowMs)]
  }

  /** A provider's call has come back and been observed. */
  ghost function CalledOne(c: CircuitBreaker, e: Env, ss: Stores): Stores {
    ss[c := Observed(c.cfg, At(ss, c), e.outcome, e.latencyMs, e.recordedMs, e.nowMs)]
  }

  /** The provider's stores after the walk has passed its rung. */
  function Visited(cfg: Config, s: Store, e: Env): Store {
    var asked := Refreshed(cfg, s, e.askMs);
    if Admits(cfg, s.hash, e.draw, e.askMs) then Observed(cfg, asked, e.outcome, e.latencyMs, e.recordedMs, e.nowMs)
    else asked
  }

  /** The walk has passed the rungs from..to, in order. */
  ghost function PassedBy(ladder: seq<CircuitBreaker>, env: seq<Env>, ss: Stores, from: nat, to: nat): Stores
    requires |env| == |ladder|
  {
    if to <= from || to > |ladder| then ss
    else
      var c, before := ladder[to - 1], PassedBy(ladder, env, ss, from, to - 1);
      before[c := Visited(c.cfg, At(before, c), env[to - 1])]
  }

  // ---------------------------------------------------------------- the rungs as the walk finds them

  /** Rung k, as the check before a race finds it. */
  ghost predicate FoundBefore(ladder: seq<CircuitBreaker>, asks: seq<Ask>, env: seq<Env>, ss: Stores, rungs: seq<Rung>,
                              k: nat)
    requires |asks| == |env| == |rungs| == |ladder| && k < |ladder|
  {
    var hash := At(AskedBy(ladder, asks, ss, k), ladder[k]).hash;
    && rungs[k].admitsRace == Admits(ladder[k].cfg, hash, asks[k].draw, asks[k].nowMs)
    && rungs[k].outcome == env[k].outcome
  }

  /** Rung k, as a plain walk that sets out from stores ss at rung start finds it. */
  ghost predicate FoundOnTheWay(ladder: seq<CircuitBreaker>, env: seq<Env>, ss: Stores, rungs: seq<Rung>, start: nat,
                                k: nat)
    requires |env| == |rungs| == |ladder| && k < |ladder|
  {
    var hash := At(PassedBy(ladder, env, ss, start, k), ladder[k]).hash;
    && rungs[k].admitsWalk == Admits(ladder[k].cfg, hash, env[k].draw, env[k].askMs)
    && rungs[k].outcome == env[k].outcome
  }

  /** The stores after a race between rungs a and b: each call that came back has been observed, in
      the order they did. */
  ghost function StoresAfterRace(ladder: seq<CircuitBreaker>, env: seq<Env>, ss: Stores, a: nat, b: nat, race: Race)
    : Stores
    requires |env| == |ladder| && a < |ladder| && b < |ladder|
  {
    if race.primaryInTime then CalledOne(ladder[a], env[a], ss)
    else
      var (side, loserDone) := Winner(env[a].outcome, env[b].outcome, race);
      if !loserDone then CalledOne(ladder[if side == Primary then a else b], env[if side == Primary then a else b], ss)
      else
        var first, second := if race.hedgeRecordsFirst then b else a, if race.hedgeRecordsFirst then a else b;
        CalledOne(ladder[second], env[second], CalledOne(ladder[first], env[first], ss))
  }

  /** The stores after a start whose first admitted rungs are a and b: the rungs asked up to b, and
      the two raced; or all of them asked, if there are not two. */
  ghost function StoresAfterAsking(ladder: seq<CircuitBreaker>, asks: seq<Ask>, env: seq<Env>, ss: Stores,
                                   a: nat, b: nat, race: Race)
    : Stores
    requires |asks| == |env| == |ladder|
  {
    if a >= |ladder| || b >= |ladder| then AskedBy(ladder, asks, ss, |ladder|)
    else StoresAfterRace(ladder, env, AskedBy(ladder, asks, ss, b + 1), a, b, race)
  }

  ghost function StoresAfterStart(ladder: seq<CircuitBreaker>, asks: seq<Ask>, env: seq<Env>, ss: Stores,
                                  rungs: seq<Rung>, race: Race)
    : Stores
    requires |asks| == |env| == |rungs| == |ladder|
  {
    var a := NextAdmitted(rungs, 0);
    StoresAfterAsking(ladder, asks, env, ss, a, NextAdmitted(rungs, a + 1), race)
  }

  /** The rungs are those the circuits present to this request: to the checks before the race if it
      hedges, and to the plain walk, from the rung and the stores it sets out from. */
  ghost predicate Presented(ladder: seq<CircuitBreaker>, asks: seq<Ask>, env: seq<Env>, ss: Stores, rungs: seq<Rung>,
                            hedge: bool, race: Race)
    requires |asks| == |env| == |ladder|
  {
    && |rungs| == |ladder|
    && (hedge ==> forall k :: 0 <= k < |ladder| ==> FoundBefore(ladder, asks, env, ss, rungs, k))
    && var start := if hedge then HedgedStart(rungs, race).1 else 0;
       var from := if hedge then StoresAfterStart(ladder, asks, env, ss, rungs, race) else ss;
       forall k :: start <= k < |ladder| ==> FoundOnTheWay(ladder, env, from, rungs, start, k)
  }

  /** The stores after what follows a start: nothing if it settled the request, else the plain walk
      on from there. */
  ghost function StoresBehind(ladder: seq<CircuitBreaker>, env: seq<Env>, ss: Stores, rungs: seq<Rung>,
                              settled: bool, start: nat)
    : Stores
    requires |env| == |rungs| == |ladder|
  {
    if settled then ss else PassedBy(ladder, env, ss, start, start + |PlainFrom(rungs, start).routed.attempts|)
  }

  /** The stores after the whole request. */
  ghost function StoresAfter(ladder: seq<CircuitBreaker>, asks: seq<Ask>, env: seq<Env>, ss: Stores, rungs: seq<Rung>,
                             hedge: bool, race: Race)
    : Stores
    requires |asks| == |env| == |rungs| == |ladder|
  {
    if !hedge then StoresBehind(ladder, env, ss, rungs, false, 0)
    else
      var (started, start) := HedgedStart(rungs, race);
      var raced := StoresAfterStart(ladder, asks, env, ss, rungs, race);
      StoresBehind(ladder, env, raced, rungs, started.routed.result.Some?, start)
  }

  /** The rungs dialled are exactly the admitted ones among those visited. */
  lemma {:induction false} DialsAreAdmitted(rungs: seq<Rung>, i: nat, k: nat)
    requires i <= k < |rungs|
    ensures k in PlainFrom(rungs, i).dialled <==> rungs[k].admitsWalk && k < i + |PlainFrom(rungs, i).routed.attempts|
    decreases |rungs| - i
  {
    PlainDialsIncrease(rungs, i + 1);
    if i < k && !Settles(rungs[i]) {
      DialsAreAdmitted(rungs, i + 1, k);
    }
  }

  /** One rung passed over or called, with what came before kept in front. */
  lemma PassRung(rungs: seq<Rung>, i: nat, attempts: seq<Entry>, dialled: seq<nat>)
    requires i < |rungs|
    ensures var here, rest := After(attempts, dialled, PlainFrom(rungs, i)), PlainFrom(rungs, i + 1);
            var call := Call(i, rungs[i].outcome);
            if !rungs[i].admitsWalk then here == After(attempts + [Skipped(i)], dialled, rest)
            else if IsFinal(call.outcome) then
              here == Walk(RouteOutcome(Some(call), attempts + [Called(call)]), dialled + [i])
            else here == After(attempts + [Called(call)], dialled + [i], rest)
  {
    if !rungs[i].admitsWalk {
      AfterTwice(attempts, dialled, [Skipped(i)], [], PlainFrom(rungs, i + 1));
      assert dialled + [] == dialled;
    } else if !IsFinal(rungs[i].outcome) {
      AfterTwice(attempts, dialled, [Called(Call(i, rungs[i].outcome))], [i], PlainFrom(rungs, i + 1));
    }
  }

  /** A race looks at nothing but the answers given before it and the outcomes. */
  lemma {:induction false} SameNextAdmitted(p: seq<Rung>, q: seq<Rung>, i: nat)
    requires |p| == |q| && forall k :: 0 <= k < |p| ==> p[k].admitsRace == q[k].admitsRace
    ensures NextAdmitted(p, i) == NextAdmitted(q, i)
    decreases |p| - i
  {
    if i < |p| && !p[i].admitsRace { SameNextAdmitted(p, q, i + 1); }
  }

  lemma AnswersBefore(ladder: seq<CircuitBreaker>, asks: seq<Ask>, env: seq<Env>, ss: Stores) returns (rungs: seq<Rung>)
    requires |asks| == |env| == |ladder|
    ensures |rungs| == |ladder| && forall k :: 0 <= k < |ladder| ==> FoundBefore(ladder, asks, env, ss, rungs, k)
  {
    rungs := seq(|ladder|, k requires 0 <= k < |ladder| =>
      var hash := At(AskedBy(ladder, asks, ss, k), ladder[k]).hash;
      var admits := Admits(ladder[k].cfg, hash, asks[k].draw, asks[k].nowMs);
      Rung(admits, admits, env[k].outcome));
  }

  /** The rungs q are the rungs p but for the answers they give on the way. */
  ghost predicate SameBefore(p: seq<Rung>, q: seq<Rung>) {
    |p| == |q| && forall k :: 0 <= k < |p| ==> p[k].admitsRace == q[k].admitsRace && p[k].outcome == q[k].outcome
  }

  lemma AnswersOnTheWay(ladder: seq<CircuitBreaker>, env: seq<Env>, ss: Stores, asked: seq<Rung>, start: nat)
    returns (rungs: seq<Rung>)
    requires |env| == |asked| == |ladder| && forall k :: 0 <= k < |ladder| ==> asked[k].outcome == env[k].outcome
    ensures SameBefore(asked, rungs)
    ensures forall k :: start <= k < |ladder| ==> FoundOnTheWay(ladder, env, ss, rungs, start, k)
  {
    rungs := seq(|ladder|, k requires 0 <= k < |ladder| =>
      var hash := At(PassedBy(ladder, env, ss, start, k), ladder[k]).hash;
      asked[k].(admitsWalk := Admits(ladder[k].cfg, hash, env[k].draw, env[k].askMs)));
  }

  lemma {:induction false} SameStart(p: seq<Rung>, q: seq<Rung>, race: Race)
    requires SameBefore(p, q)
    ensures HedgedStart(p, race) == HedgedStart(q, race)
  {
    var a := NextAdmitted(p, 0);
    var b := NextAdmitted(p, a + 1);
    SameNextAdmitted(p, q, 0);
    SameNextAdmitted(p, q, a + 1);
    if a < |p| && b < |p| {
      assert p[a].outcome == q[a].outcome && p[b].outcome == q[b].outcome;
    }
  }

  lemma {:induction false} SameHedgedStart(ladder: seq<CircuitBreaker>, asks: seq<Ask>, env: seq<Env>, ss: Stores,
                                           p: seq<Rung>, q: seq<Rung>, race: Race)
    requires |asks| == |env| == |p| == |ladder| && SameBefore(p, q)
    ensures HedgedStart(p, race) == HedgedStart(q, race)
    ensures StoresAfterStart(ladder, asks, env, ss, p, race) == StoresAfterStart(ladder, asks, env, ss, q, race)
  {
    SameStart(p, q, race);
    SameNextAdmitted(p, q, 0);
    SameNextAdmitted(p, q, NextAdmitted(p, 0) + 1);
  }

  /** There are rungs the circuits present, whatever state they are in. */
  lemma RungsExist(ladder: seq<CircuitBreaker>, asks: seq<Ask>, env: seq<Env>, ss: Stores, hedge: bool, race: Race)
    returns (rungs: seq<Rung>)
    requires |asks| == |env| == |ladder|
    ensures Presented(ladder, asks, env, ss, rungs, hedge, race)
  {
    var asked := AnswersBefore(ladder, asks, env, ss);
    forall k | 0 <= k < |ladder| ensures asked[k].outcome == env[k].outcome {
      assert FoundBefore(ladder, asks, env, ss, asked, k);
    }
    var start := if hedge then HedgedStart(asked, race).1 else 0;
    var from := if hedge then StoresAfterStart(ladder, asks, env, ss, asked, race) else ss;
    rungs := AnswersOnTheWay(ladder, env, from, asked, start);
    SameHedgedStart(ladder, asks, env, ss, asked, rungs, race);
    forall k | 0 <= k < |ladder| ensures FoundBefore(ladder, asks, env, ss, rungs, k) {
      assert FoundBefore(ladder, asks, env, ss, asked, k);
    }
  }

  /** What a call that is back in time leaves behind. */
  function Alone(call: Call): Walk {
    Walk(RouteOutcome(if IsFinal(call.outcome) then Some(call) else None, [Called(call)]), [call.rung])
  }

  lemma StoresOfTwo(ladder: seq<CircuitBreaker>, asks: seq<Ask>, env: seq<Env>, ss: Stores, asked: Stores,
                    a: nat, b: nat, race: Race)
    requires |asks| == |env| == |ladder| && a < |ladder| && b < |ladder| && asked == AskedBy(ladder, asks, ss, b + 1)
    ensures StoresAfterAsking(ladder, asks, env, ss, a, b, race) == StoresAfterRace(ladder, env, asked, a, b, race)
  {}

  lemma StartOfOne(rungs: seq<Rung>, race: Race)
    requires !(NextAdmitted(rungs, 0) < |rungs| && NextAdmitted(rungs, NextAdmitted(rungs, 0) + 1) < |rungs|)
    ensures HedgedStart(rungs, race) == (Walk(RouteOutcome(None, []), []), 0)
  {}

  /** Where a race between the first two admitted rungs leads. */
  lemma StartOfTwo(rungs: seq<Rung>, a: nat, b: nat, race: Race)
    requires a == NextAdmitted(rungs, 0) < |rungs| && b == NextAdmitted(rungs, a + 1) < |rungs|
    ensures var first, second := Call(a, rungs[a].outcome), Call(b, rungs[b].outcome);
            var started := if race.primaryInTime then Alone(first) else Raced(first, second, race);
            var next := if race.primaryInTime then a + 1 else b + 1;
            HedgedStart(rungs, race) == (started, if started.routed.result.Some? then 0 else next)
  {}

  // ---------------------------------------------------------------- the walk as it runs

  /** Ask the k-th circuit before a race. */
  method AskOne(ladder: seq<CircuitBreaker>, ghost keys: set<object>, asks: seq<Ask>, ghost before: Stores, k: nat)
    returns (admitted: bool)
    requires |asks| == |ladder| && k < |ladder| && Wired(ladder, keys)
    requires Views(ladder) == AskedBy(ladder, asks, before, k)
    modifies ladder[k], ladder[k].window
    ensures var hash := At(AskedBy(ladder, asks, before, k), ladder[k]).hash;
            admitted == Admits(ladder[k].cfg, hash, asks[k].draw, asks[k].nowMs)
    ensures Views(ladder) == AskedBy(ladder, asks, before, k + 1)
  {
    var c := ladder[k];
    assert c.View() == At(Views(ladder), c);
    admitted := c.Allows(asks[k].draw, asks[k].nowMs);
    assert Views(ladder) == old(Views(ladder))[c := c.View()];
  }

  method CallOne(ladder: seq<CircuitBreaker>, ghost keys: set<object>, env: seq<Env>, k: nat)
    requires |env| == |ladder| && k < |ladder| && Wired(ladder, keys)
    modifies ladder[k], ladder[k].window
    ensures Views(ladder) == CalledOne(ladder[k], env[k], old(Views(ladder)))
  {
    var c := ladder[k];
    c.Observe(env[k].outcome, env[k].latencyMs, env[k].recordedMs, env[k].nowMs);
    assert Views(ladder) == old(Views(ladder))[c := c.View()];
  }

  /** Ask the k-th circuit, and if it admits the request, call its provider and observe the call. */
  method Visit(ladder: seq<CircuitBreaker>, ghost keys: set<object>, env: seq<Env>, ghost before: Stores,
               ghost start: nat, k: nat)
    returns (admitted: bool)
    requires |env| == |ladder| && start <= k < |ladder| && Wired(ladder, keys)
    requires Views(ladder) == PassedBy(ladder, env, before, start, k)
    modifies ladder[k], ladder[k].window
    ensures var hash := At(PassedBy(ladder, env, before, start, k), ladder[k]).hash;
            admitted == Admits(ladder[k].cfg, hash, env[k].draw, env[k].askMs)
    ensures Views(ladder) == PassedBy(ladder, env, before, start, k + 1)
  {
    var c := ladder[k];
    assert c.View() == At(Views(ladder), c);
    admitted := c.Allows(env[k].draw, env[k].askMs);
    if admitted {
      c.Observe(env[k].outcome, env[k].latencyMs, env[k].recordedMs, env[k].nowMs);
    }
    assert Views(ladder) == old(Views(ladder))[c := c.View()];
  }

  /** How far a plain walk from rung start has got: it has passed the rungs before i and goes on, or
      it has its answer. */
  ghost predicate OnCourse(rungs: seq<Rung>, start: nat, i: nat, walk: Walk) {
    && start + |walk.routed.attempts| == i
    && PlainFrom(rungs, start) ==
         if walk.routed.result.Some? then walk else After(walk.routed.attempts, walk.dialled, PlainFrom(rungs, i))
  }

  lemma StaysOnCourse(rungs: seq<Rung>, start: nat, i: nat, walk: Walk)
    requires i < |rungs| && OnCourse(rungs, start, i, walk) && walk.routed.result.None?
    ensures OnCourse(rungs, start, i + 1, Extended(walk, i, rungs[i].admitsWalk, rungs[i].outcome))
  {
    PassRung(rungs, i, walk.routed.attempts, walk.dialled);
  }

  /** The walk with one more rung passed over, or called. */
  function Extended(walk: Walk, i: nat, admitted: bool, outcome: Outcome): Walk {
    var call := Call(i, outcome);
    if !admitted then Walk(RouteOutcome(None, walk.routed.attempts + [Skipped(i)]), walk.dialled)
    else
      Walk(RouteOutcome(if IsFinal(outcome) then Some(call) else None, walk.routed.attempts + [Called(call)]),
           walk.dialled + [i])
  }

  lemma ArrivesOnCourse(rungs: seq<Rung>, start: nat, walk: Walk)
    requires start <= |rungs| && OnCourse(rungs, start, |rungs|, walk)
    ensures walk == PlainFrom(rungs, start)
  {
    assert walk.routed.attempts + [] == walk.routed.attempts && walk.dialled + [] == walk.dialled;
  }

  /** The providers' stores are those of a walk that has passed the rungs start..i. */
  ghost predicate Reached(ladder: seq<CircuitBreaker>, env: seq<Env>, before: Stores, start: nat, i: nat)
    requires |env| == |ladder|
    reads ladder, set c | c in ladder :: c.window
  {
    Views(ladder) == PassedBy(ladder, env, before, start, i)
  }

  /** Where a plain walk over real circuits stands when it has passed the rungs start..i. */
  ghost predicate Halfway(ladder: seq<CircuitBreaker>, env: seq<Env>, before: Stores, rungs: seq<Rung>, start: nat,
                          i: nat, walk: Walk)
    requires |env| == |ladder|
    reads ladder, set c | c in ladder :: c.window
  {
    OnCourse(rungs, start, i, walk) && Reached(ladder, env, before, start, i)
  }

  /** Pass one rung of the walk. */
  method PassOne(ladder: seq<CircuitBreaker>, ghost keys: set<object>, env: seq<Env>, ghost before: Stores,
                 ghost rungs: seq<Rung>, ghost start: nat, i: nat, walk: Walk)
    returns (further: Walk)
    requires |env| == |rungs| == |ladder| && start <= i < |ladder| && Wired(ladder, keys)
    requires FoundOnTheWay(ladder, env, before, rungs, start, i)
    requires walk.routed.result.None? && Halfway(ladder, env, before, rungs, start, i, walk)
    modifies keys
    ensures Halfway(ladder, env, before, rungs, start, i + 1, further)
  {
    StaysOnCourse(rungs, start, i, walk);
    var admitted := Visit(ladder, keys, env, before, start, i);
    if !admitted {
      return Walk(RouteOutcome(None, walk.routed.attempts + [Skipped(i)]), walk.dialled);
    }
    var call := Call(i, env[i].outcome);
    var attempts, dialled := walk.routed.attempts + [Called(call)], walk.dialled + [i];
    return Walk(RouteOutcome(if IsFinal(call.outcome) then Some(call) else None, attempts), dialled);
  }

  /** The plain walk from one rung on. It is the plain walk of the rungs it finds on the way; every
      provider it reached was asked once, and if admitted called and observed once; the rungs below
      the answer were not touched. */
  method WalkLadder(ladder: seq<CircuitBreaker>, ghost keys: set<object>, env: seq<Env>, ghost rungs: seq<Rung>,
                    start: nat)
    returns (walk: Walk)
    requires |env| == |rungs| == |ladder| && start <= |ladder| && Wired(ladder, keys)
    requires FoundFrom(ladder, env, Views(ladder), rungs, start)
    modifies keys
    ensures walk == PlainFrom(rungs, start)
    ensures Reached(ladder, env, old(Views(ladder)), start, start + |walk.routed.attempts|)
  {
    ghost var before := Views(ladder);
    walk := Walk(RouteOutcome(None, []), []);
    var i := start;
    while i < |ladder|
      invariant start <= i <= |ladder| && walk.routed.result.None?
      invariant Halfway(ladder, env, before, rungs, start, i, walk)
    {
      assert FoundOnTheWay(ladder, env, before, rungs, start, i);
      walk := PassOne(ladder, keys, env, before, rungs, start, i, walk);
      if walk.routed.result.Some? {
        return;
      }
      i := i + 1;
    }
    ArrivesOnCourse(rungs, start, walk);
  }

  /** The rungs before i hold the first admitted ones gathered so far, and no further one. */
  ghost predicate Gathered(rungs: seq<Rung>, admitted: seq<nat>, i: nat)
    requires |admitted| < 2 && i <= |rungs|
  {
    if admitted == [] then NextAdmitted(rungs, 0) == NextAdmitted(rungs, i)
    else
      && admitted[0] == NextAdmitted(rungs, 0) < i
      && NextAdmitted(rungs, admitted[0] + 1) == NextAdmitted(rungs, i)
  }

  /** Ask the circuits in ladder order until two admit the request. */
  method AskForTwo(ladder: seq<CircuitBreaker>, ghost keys: set<object>, asks: seq<Ask>, ghost env: seq<Env>,
                   ghost rungs: seq<Rung>)
    returns (admitted: seq<nat>)
    requires |asks| == |env| == |rungs| == |ladder| && Wired(ladder, keys)
    requires forall k :: 0 <= k < |ladder| ==> FoundBefore(ladder, asks, env, Views(ladder), rungs, k)
    modifies keys
    ensures var before, a := old(Views(ladder)), NextAdmitted(rungs, 0);
            var b := NextAdmitted(rungs, a + 1);
            if a < |ladder| && b < |ladder| then
              admitted == [a, b] && Views(ladder) == AskedBy(ladder, asks, before, b + 1)
            else |admitted| < 2 && Views(ladder) == AskedBy(ladder, asks, before, |ladder|)
  {
    ghost var before := Views(ladder);
    admitted := [];
    for i := 0 to |ladder|
      invariant Views(ladder) == AskedBy(ladder, asks, before, i)
      invariant |admitted| < 2 && Gathered(rungs, admitted, i)
    {
      var admits := AskOne(ladder, keys, asks, before, i);
      assert FoundBefore(ladder, asks, env, before, rungs, i);
      if admits {
        admitted := admitted + [i];
        if |admitted| == 2 {
          return;
        }
      }
    }
  }

  /** Each call of the race that came back is observed, in the order they did. */
  method ObserveRace(ladder: seq<CircuitBreaker>, ghost keys: set<object>, env: seq<Env>, a: nat, b: nat, race: Race,
                     side: Side, loserDone: bool)
    requires |env| == |ladder| && a < |ladder| && b < |ladder| && Wired(ladder, keys) && !race.primaryInTime
    requires (side, loserDone) == Winner(env[a].outcome, env[b].outcome, race)
    modifies keys
    ensures Views(ladder) == StoresAfterRace(ladder, env, old(Views(ladder)), a, b, race)
  {
    var hedgeLeads := if loserDone then race.hedgeRecordsFirst else side == Hedge;
    CallOne(ladder, keys, env, if hedgeLeads then b else a);
    if loserDone {
      CallOne(ladder, keys, env, if hedgeLeads then a else b);
    }
  }

  /** Both calls are out: each that comes back is observed. */
  method RaceBoth(ladder: seq<CircuitBreaker>, ghost keys: set<object>, env: seq<Env>, a: nat, b: nat, race: Race)
    returns (started: Walk)
    requires |env| == |ladder| && a < |ladder| && b < |ladder| && Wired(ladder, keys) && !race.primaryInTime
    modifies keys
    ensures started == Raced(Call(a, env[a].outcome), Call(b, env[b].outcome), race)
    ensures Views(ladder) == StoresAfterRace(ladder, env, old(Views(ladder)), a, b, race)
  {
    var first, second := Call(a, env[a].outcome), Call(b, env[b].outcome);
    var side, loserDone := FirstUsable(first.outcome, second.outcome, race);
    ObserveRace(ladder, keys, env, a, b, race, side, loserDone);
    var winner, loser := if side == Primary then first else second, if side == Primary then second else first;
    var result := if IsFinal(winner.outcome) then Some(winner) else None;
    started := Walk(RouteOutcome(result, Trail(winner, loser, loserDone)), [a, b]);
  }

  /** One call is made, and the other if the first is not back in time. */
  method RunRace(ladder: seq<CircuitBreaker>, ghost keys: set<object>, env: seq<Env>, a: nat, b: nat, race: Race)
    returns (started: Walk)
    requires |env| == |ladder| && a < |ladder| && b < |ladder| && Wired(ladder, keys)
    modifies keys
    ensures var first, second := Call(a, env[a].outcome), Call(b, env[b].outcome);
            started == if race.primaryInTime then Alone(first) else Raced(first, second, race)
    ensures Views(ladder) == StoresAfterRace(ladder, env, old(Views(ladder)), a, b, race)
  {
    if race.primaryInTime {
      CallOne(ladder, keys, env, a);
      return Alone(Call(a, env[a].outcome));
    }
    started := RaceBoth(ladder, keys, env, a, b, race);
  }

  /** The hedged start over real circuits. */
  method StartHedged(ladder: seq<CircuitBreaker>, ghost keys: set<object>, asks: seq<Ask>, env: seq<Env>,
                     ghost rungs: seq<Rung>, race: Race)
    returns (started: Walk, start: nat)
    requires |asks| == |env| == |rungs| == |ladder| && Wired(ladder, keys)
    requires forall k :: 0 <= k < |ladder| ==> FoundBefore(ladder, asks, env, Views(ladder), rungs, k)
    modifies keys
    ensures (started, start) == HedgedStart(rungs, race)
    ensures Views(ladder) == StoresAfterStart(ladder, asks, env, old(Views(ladder)), rungs, race)
  {
    ghost var before := Views(ladder);
    var admitted := AskForTwo(ladder, keys, asks, env, rungs);
    if |admitted| < 2 {
      StartOfOne(rungs, race);
      return Walk(RouteOutcome(None, []), []), 0;
    }
    var a, b := admitted[0], admitted[1];
    assert FoundBefore(ladder, asks, env, before, rungs, a) && FoundBefore(ladder, asks, env, before, rungs, b);
    StartOfTwo(rungs, a, b, race);
    StoresOfTwo(ladder, asks, env, before, Views(ladder), a, b, race);
    started := RunRace(ladder, keys, env, a, b, race);
    start := if started.routed.result.Some? then 0 else if race.primaryInTime then a + 1 else b + 1;
  }

  /** The hedged start, and if it settles nothing the plain walk on from behind it. */
  method RouteHedged(ladder: seq<CircuitBreaker>, ghost keys: set<object>, asks: seq<Ask>, env: seq<Env>,
                     ghost rungs: seq<Rung>, race: Race)
    returns (walk: Walk)
    requires |asks| == |env| == |ladder| && Wired(ladder, keys)
    requires Presented(ladder, asks, env, Views(ladder), rungs, true, race)
    modifies keys
    ensures walk == Routed(rungs, true, race)
    ensures Views(ladder) == StoresAfter(ladder, asks, env, old(Views(ladder)), rungs, true, race)
  {
    var started, start := StartHedged(ladder, keys, asks, env, rungs, race);
    if started.routed.result.Some? {
      return started;
    }
    var rest := WalkLadder(ladder, keys, env, rungs, start);
    walk := Walk(RouteOutcome(rest.routed.result, started.routed.attempts + rest.routed.attempts),
                 started.dialled + rest.dialled);
  }

  /** A whole request over real circuits, hedged or not. It is the walk of the rungs they present to
      it: before a race each circuit asked in order until two admit, each call that came back
      observed once; on the walk each rung asked once, and if admitted called and observed once;
      and every other provider left alone. So the stores of each provider are led on by just the
      calls the trail names on it and the checks of its rungs. A provider may be on the ladder more
      than once. */
  method RouteLadder(ladder: seq<CircuitBreaker>, ghost keys: set<object>, asks: seq<Ask>, env: seq<Env>,
                     hedge: bool, race: Race)
    returns (walk: Walk, ghost rungs: seq<Rung>)
    requires |asks| == |env| == |ladder| && Wired(ladder, keys)
    modifies keys
    ensures Presented(ladder, asks, env, old(Views(ladder)), rungs, hedge, race)
    ensures walk == Routed(rungs, hedge, race)
    ensures Views(ladder) == StoresAfter(ladder, asks, env, old(Views(ladder)), rungs, hedge, race)
    ensures forall c :: c in ladder ==>
              RequestLeads(ladder, asks, env, rungs, hedge, race, c, At(old(Views(ladder)), c), At(Views(ladder), c))
  {
    ghost var before := Views(ladder);
    rungs := RungsExist(ladder, asks, env, Views(ladder), hedge, race);
    if hedge {
      walk := RouteHedged(ladder, keys, asks, env, rungs, race);
    } else {
      walk := WalkLadder(ladder, keys, env, rungs, 0);
    }
    EveryProviderIsLed(ladder, asks, env, before, rungs, hedge, race);
  }

  // ---------------------------------------------------------------- what a request does to a provider

  ghost predicate LinkAt(cfg: Config, rs: seq<Store>, es: seq<Runs.Event>, i: nat)
    requires i < |es| && |rs| == |es| + 1
  {
    rs[i + 1] == Runs.Step(cfg, rs[i], es[i])
  }

  /** These events take one provider's stores through these states. */
  ghost predicate Chain(cfg: Config, rs: seq<Store>, es: seq<Runs.Event>) {
    |rs| == |es| + 1 && forall i :: 0 <= i < |es| ==> LinkAt(cfg, rs, es, i)
  }

  /** Just these events, in some order, take stores s to stores t. */
  ghost predicate Leads(cfg: Config, s: Store, t: Store, events: multiset<Runs.Event>) {
    exists rs, es :: Chain(cfg, rs, es) && rs[0] == s && rs[|es|] == t && multiset(es) == events
  }

  lemma {:induction false} NothingLeads(cfg: Config, s: Store)
    ensures Leads(cfg, s, s, multiset{})
  {
    assert Chain(cfg, [s], []);
  }

  lemma {:induction false} ChainGoesOn(cfg: Config, rs: seq<Store>, es: seq<Runs.Event>, e: Runs.Event, t: Store)
    requires Chain(cfg, rs, es) && t == Runs.Step(cfg, rs[|es|], e)
    ensures Chain(cfg, rs + [t], es + [e])
  {
    var rs', es' := rs + [t], es + [e];
    forall i | 0 <= i < |es'| ensures LinkAt(cfg, rs', es', i) {
      if i < |es| {
        assert LinkAt(cfg, rs, es, i) && rs'[i] == rs[i] && rs'[i + 1] == rs[i + 1] && es'[i] == es[i];
      }
    }
  }

  lemma {:induction false} LeadsOn(cfg: Config, s: Store, t: Store, events: multiset<Runs.Event>, e: Runs.Event)
    requires Leads(cfg, s, t, events)
    ensures Leads(cfg, s, Runs.Step(cfg, t, e), events + multiset{e})
  {
    var rs, es :| Chain(cfg, rs, es) && rs[0] == s && rs[|es|] == t && multiset(es) == events;
    var next := Runs.Step(cfg, t, e);
    ChainGoesOn(cfg, rs, es, e, next);
    assert multiset(es + [e]) == events + multiset{e};
    assert (rs + [next])[|es + [e]|] == next && (rs + [next])[0] == s;
  }

  /** A run goes on through the states a chain takes its last stores. */
  lemma {:induction false} ChainExtendsRun(cfg: Config, rs: seq<Store>, es: seq<Runs.Event>, more: seq<Store>,
                                           moreEs: seq<Runs.Event>)
    requires Runs.IsRun(cfg, rs, es) && Chain(cfg, more, moreEs) && more[0] == rs[|es|]
    ensures Runs.IsRun(cfg, rs + more[1..], es + moreEs)
  {
    var rs', es', n := rs + more[1..], es + moreEs, |es|;
    forall i | 0 <= i < |es'| ensures rs'[i + 1] == Runs.Step(cfg, rs'[i], es'[i]) {
      if i < n {
        assert rs'[i] == rs[i] && es'[i] == es[i] && rs'[i + 1] == rs[i + 1];
      } else {
        assert LinkAt(cfg, more, moreEs, i - n);
        assert rs'[i] == more[i - n] && es'[i] == moreEs[i - n] && rs'[i + 1] == more[i - n + 1];
      }
    }
  }

  /** The call on this circuit, if it is one, that an entry of the trail names, with what its provider
      came back with. */
  ghost function CallOf(ladder: seq<CircuitBreaker>, env: seq<Env>, entry: Entry, c: CircuitBreaker)
    : multiset<Runs.Event>
    requires |env| == |ladder|
  {
    if entry.Called? && entry.call.rung < |ladder| && ladder[entry.call.rung] == c then
      var e := env[entry.call.rung];
      multiset{Runs.Observe(e.outcome, e.latencyMs, e.recordedMs, e.nowMs)}
    else multiset{}
  }

  /** The calls on this circuit that the first n entries of a trail name. */
  ghost function CallsUpTo(ladder: seq<CircuitBreaker>, env: seq<Env>, attempts: seq<Entry>, n: nat, c: CircuitBreaker)
    : multiset<Runs.Event>
    requires |env| == |ladder| && n <= |attempts|
  {
    if n == 0 then multiset{}
    else CallsUpTo(ladder, env, attempts, n - 1, c) + CallOf(ladder, env, attempts[n - 1], c)
  }

  /** The calls on this circuit that a trail names. */
  ghost function CallsOn(ladder: seq<CircuitBreaker>, env: seq<Env>, attempts: seq<Entry>, c: CircuitBreaker)
    : multiset<Runs.Event>
    requires |env| == |ladder|
  {
    CallsUpTo(ladder, env, attempts, |attempts|, c)
  }

  /** The checks of this circuit among those of the first n rungs before a race. */
  ghost function AsksBefore(ladder: seq<CircuitBreaker>, asks: seq<Ask>, n: nat, c: CircuitBreaker)
    : multiset<Runs.Event>
    requires |asks| == |ladder|
  {
    if n == 0 || n > |ladder| then multiset{}
    else
      AsksBefore(ladder, asks, n - 1, c)
      + if ladder[n - 1] == c then multiset{Runs.Ask(asks[n - 1].draw, asks[n - 1].nowMs)} else multiset{}
  }

  /** The check of this circuit, if it is one, that the walk makes of rung k. */
  ghost function AskAt(ladder: seq<CircuitBreaker>, env: seq<Env>, k: nat, c: CircuitBreaker): multiset<Runs.Event>
    requires |env| == |ladder| && k < |ladder|
  {
    if ladder[k] == c then multiset{Runs.Ask(env[k].draw, env[k].askMs)} else multiset{}
  }

  /** The checks of this circuit among those the walk makes of the rungs from..to. */
  ghost function AsksOnWay(ladder: seq<CircuitBreaker>, env: seq<Env>, from: nat, to: nat, c: CircuitBreaker)
    : multiset<Runs.Event>
    requires |env| == |ladder|
  {
    if to <= from || to > |ladder| then multiset{}
    else AsksOnWay(ladder, env, from, to - 1, c) + AskAt(ladder, env, to - 1, c)
  }

  /** How many rungs are asked before a race. */
  function AskedBefore(rungs: seq<Rung>): nat {
    var a := NextAdmitted(rungs, 0);
    var b := NextAdmitted(rungs, a + 1);
    if a < |rungs| && b < |rungs| then b + 1 else |rungs|
  }

  /** The checks of this circuit the walk makes behind a start, if that did not settle the request. */
  ghost function AsksBehind(ladder: seq<CircuitBreaker>, env: seq<Env>, rungs: seq<Rung>, settled: bool, start: nat,
                            c: CircuitBreaker)
    : multiset<Runs.Event>
    requires |env| == |ladder|
  {
    if settled then multiset{}
    else AsksOnWay(ladder, env, start, start + |PlainFrom(rungs, start).routed.attempts|, c)
  }

  /** The checks of this circuit a whole request makes: before a race, and on the walk. */
  ghost function AsksOn(ladder: seq<CircuitBreaker>, asks: seq<Ask>, env: seq<Env>, rungs: seq<Rung>, hedge: bool,
                        race: Race, c: CircuitBreaker)
    : multiset<Runs.Event>
    requires |asks| == |env| == |rungs| == |ladder|
  {
    if !hedge then AsksBehind(ladder, env, rungs, false, 0, c)
    else
      var (started, start) := HedgedStart(rungs, race);
      AsksBefore(ladder, asks, AskedBefore(rungs), c)
      + AsksBehind(ladder, env, rungs, started.routed.result.Some?, start, c)
  }

  // Each of these lemmas goes on from stores s that some events have led to those c has before.

  lemma {:induction false} AskingLeads(ladder: seq<CircuitBreaker>, asks: seq<Ask>, ss: Stores, n: nat,
                                       c: CircuitBreaker, s: Store, events: multiset<Runs.Event>)
    requires |asks| == |ladder| && Leads(c.cfg, s, At(ss, c), events)
    ensures Leads(c.cfg, s, At(AskedBy(ladder, asks, ss, n), c), events + AsksBefore(ladder, asks, n, c))
  {
    if 0 < n <= |ladder| {
      AskingLeads(ladder, asks, ss, n - 1, c, s, events);
      var before := events + AsksBefore(ladder, asks, n - 1, c);
      if ladder[n - 1] == c {
        var ask := Runs.Ask(asks[n - 1].draw, asks[n - 1].nowMs);
        LeadsOn(c.cfg, s, At(AskedBy(ladder, asks, ss, n - 1), c), before, ask);
        assert events + AsksBefore(ladder, asks, n, c) == before + multiset{ask};
      } else {
        assert events + AsksBefore(ladder, asks, n, c) == before;
      }
    } else {
      assert events + AsksBefore(ladder, asks, n, c) == events;
    }
  }

  lemma {:induction false} VisitLeads(cfg: Config, s: Store, t: Store, events: multiset<Runs.Event>, e: Env)
    requires Leads(cfg, s, t, events)
    ensures var call := Runs.Observe(e.outcome, e.latencyMs, e.recordedMs, e.nowMs);
            var called := if Admits(cfg, t.hash, e.draw, e.askMs) then multiset{call} else multiset{};
            Leads(cfg, s, Visited(cfg, t, e), events + (multiset{Runs.Ask(e.draw, e.askMs)} + called))
  {
    var ask, call := Runs.Ask(e.draw, e.askMs), Runs.Observe(e.outcome, e.latencyMs, e.recordedMs, e.nowMs);
    LeadsOn(cfg, s, t, events, ask);
    if Admits(cfg, t.hash, e.draw, e.askMs) {
      LeadsOn(cfg, s, Refreshed(cfg, t, e.askMs), events + multiset{ask}, call);
      assert events + (multiset{ask} + multiset{call}) == events + multiset{ask} + multiset{call};
    } else {
      assert events + (multiset{ask} + multiset{}) == events + multiset{ask};
    }
  }

  /** What the walk adds on this circuit when it passes rung k. */
  ghost function EventsAt(ladder: seq<CircuitBreaker>, env: seq<Env>, rungs: seq<Rung>, k: nat, c: CircuitBreaker)
    : multiset<Runs.Event>
    requires |env| == |rungs| == |ladder| && k < |ladder|
  {
    AskAt(ladder, env, k, c) + CallOf(ladder, env, EntryFor(rungs, k), c)
  }

  /** These events, and what the walk adds on this circuit as it passes the rungs from..to. */
  ghost function WithPassed(ladder: seq<CircuitBreaker>, env: seq<Env>, rungs: seq<Rung>, from: nat, to: nat,
                            c: CircuitBreaker, events: multiset<Runs.Event>)
    : multiset<Runs.Event>
    requires |env| == |rungs| == |ladder|
  {
    if to <= from || to > |ladder| then events
    else WithPassed(ladder, env, rungs, from, to - 1, c, events) + EventsAt(ladder, env, rungs, to - 1, c)
  }

  lemma {:induction false} PassingOneLeads(ladder: seq<CircuitBreaker>, env: seq<Env>, ss: Stores, rungs: seq<Rung>,
                                           from: nat, k: nat, c: CircuitBreaker, s: Store,
                                           events: multiset<Runs.Event>)
    requires |env| == |rungs| == |ladder| && from <= k < |ladder|
    requires Leads(c.cfg, s, At(PassedBy(ladder, env, ss, from, k), c), events)
    requires FoundOnTheWay(ladder, env, ss, rungs, from, k)
    ensures Leads(c.cfg, s, At(PassedBy(ladder, env, ss, from, k + 1), c),
                  events + EventsAt(ladder, env, rungs, k, c))
  {
    if ladder[k] == c {
      VisitLeads(c.cfg, s, At(PassedBy(ladder, env, ss, from, k), c), events, env[k]);
    } else {
      assert events + EventsAt(ladder, env, rungs, k, c) == events;
    }
  }

  ghost predicate FoundFrom(ladder: seq<CircuitBreaker>, env: seq<Env>, ss: Stores, rungs: seq<Rung>, start: nat) {
    && |env| == |rungs| == |ladder|
    && forall k :: start <= k < |ladder| ==> FoundOnTheWay(ladder, env, ss, rungs, start, k)
  }

  /** Where the walk has got to on this circuit when it has passed the rungs from..to. */
  ghost predicate LedTo(ladder: seq<CircuitBreaker>, env: seq<Env>, ss: Stores, rungs: seq<Rung>, from: nat, to: nat,
                        c: CircuitBreaker, s: Store, events: multiset<Runs.Event>)
    requires FoundFrom(ladder, env, ss, rungs, from)
  {
    Leads(c.cfg, s, At(PassedBy(ladder, env, ss, from, to), c), WithPassed(ladder, env, rungs, from, to, c, events))
  }

  lemma {:induction false} LedOn(ladder: seq<CircuitBreaker>, env: seq<Env>, ss: Stores, rungs: seq<Rung>, from: nat,
                                 to: nat, c: CircuitBreaker, s: Store, events: multiset<Runs.Event>)
    requires FoundFrom(ladder, env, ss, rungs, from) && from < to <= |ladder|
    requires LedTo(ladder, env, ss, rungs, from, to - 1, c, s, events)
    ensures LedTo(ladder, env, ss, rungs, from, to, c, s, events)
  {
    assert FoundOnTheWay(ladder, env, ss, rungs, from, to - 1);
    PassingOneLeads(ladder, env, ss, rungs, from, to - 1, c, s,
                    WithPassed(ladder, env, rungs, from, to - 1, c, events));
  }

  lemma {:induction false} PassingLeads(ladder: seq<CircuitBreaker>, env: seq<Env>, ss: Stores, rungs: seq<Rung>,
                                        from: nat, to: nat, c: CircuitBreaker, s: Store, events: multiset<Runs.Event>)
    requires FoundFrom(ladder, env, ss, rungs, from) && to <= |ladder| && Leads(c.cfg, s, At(ss, c), events)
    ensures LedTo(ladder, env, ss, rungs, from, to, c, s, events)
  {
    if from < to {
      PassingLeads(ladder, env, ss, rungs, from, to - 1, c, s, events);
      LedOn(ladder, env, ss, rungs, from, to, c, s, events);
    }
  }

  lemma {:induction false} Pairwise(a: multiset<Runs.Event>, b: multiset<Runs.Event>, x: multiset<Runs.Event>,
                                    y: multiset<Runs.Event>)
    ensures (a + b) + (x + y) == (a + x) + (b + y)
  {}

  /** The calls on this circuit that the rungs from..to stand for. */
  ghost function CallsPassed(ladder: seq<CircuitBreaker>, env: seq<Env>, rungs: seq<Rung>, from: nat, to: nat,
                             c: CircuitBreaker)
    : multiset<Runs.Event>
    requires |env| == |rungs| == |ladder|
  {
    if to <= from || to > |ladder| then multiset{}
    else CallsPassed(ladder, env, rungs, from, to - 1, c) + CallOf(ladder, env, EntryFor(rungs, to - 1), c)
  }

  lemma {:induction false} PassedAreChecksAndCalls(ladder: seq<CircuitBreaker>, env: seq<Env>, rungs: seq<Rung>,
                                                   from: nat, to: nat, c: CircuitBreaker,
                                                   events: multiset<Runs.Event>)
    requires |env| == |rungs| == |ladder|
    ensures WithPassed(ladder, env, rungs, from, to, c, events)
         == events + (AsksOnWay(ladder, env, from, to, c) + CallsPassed(ladder, env, rungs, from, to, c))
  {
    if from < to <= |ladder| {
      var k := to - 1;
      var asked, called := AsksOnWay(ladder, env, from, k, c), CallsPassed(ladder, env, rungs, from, k, c);
      PassedAreChecksAndCalls(ladder, env, rungs, from, k, c, events);
      AddedAtOnce(events, asked, called, AskAt(ladder, env, k, c), CallOf(ladder, env, EntryFor(rungs, k), c));
    } else {
      assert events + (multiset{} + multiset{}) == events;
    }
  }

  lemma {:induction false} AddedAtOnce(e: multiset<Runs.Event>, a: multiset<Runs.Event>, b: multiset<Runs.Event>,
                                       x: multiset<Runs.Event>, y: multiset<Runs.Event>)
    ensures e + (a + b) + (x + y) == e + ((a + x) + (b + y))
  {}

  /** A trail with the entries of the rungs from one on names these calls. */
  lemma {:induction false} EntriesName(ladder: seq<CircuitBreaker>, env: seq<Env>, rungs: seq<Rung>, from: nat,
                                       attempts: seq<Entry>, n: nat, c: CircuitBreaker)
    requires |env| == |rungs| == |ladder| && n <= |attempts| && from + |attempts| <= |ladder|
    requires forall m :: 0 <= m < |attempts| ==> attempts[m] == EntryFor(rungs, from + m)
    ensures CallsPassed(ladder, env, rungs, from, from + n, c) == CallsUpTo(ladder, env, attempts, n, c)
  {
    if n > 0 {
      EntriesName(ladder, env, rungs, from, attempts, n - 1, c);
      assert attempts[n - 1] == EntryFor(rungs, from + n - 1);
    }
  }

  lemma {:induction false} WalkEntries(rungs: seq<Rung>, start: nat)
    requires start <= |rungs|
    ensures var trail := PlainFrom(rungs, start).routed.attempts;
            start + |trail| <= |rungs| && forall m :: 0 <= m < |trail| ==> trail[m] == EntryFor(rungs, start + m)
  {
    PlainWalkFindsFirst(rungs, start);
  }

  lemma {:induction false} WholeTrailNames(ladder: seq<CircuitBreaker>, env: seq<Env>, rungs: seq<Rung>, start: nat,
                                           c: CircuitBreaker, trail: seq<Entry>, to: nat)
    requires |env| == |rungs| == |ladder| && to == start + |trail| <= |ladder|
    requires forall m :: 0 <= m < |trail| ==> trail[m] == EntryFor(rungs, start + m)
    ensures CallsPassed(ladder, env, rungs, start, to, c) == CallsOn(ladder, env, trail, c)
  {
    EntriesName(ladder, env, rungs, start, trail, |trail|, c);
  }

  lemma {:induction false} WalkTrailNames(ladder: seq<CircuitBreaker>, env: seq<Env>, rungs: seq<Rung>, start: nat,
                                          c: CircuitBreaker, trail: seq<Entry>, to: nat, events: multiset<Runs.Event>)
    requires |env| == |rungs| == |ladder| && to == start + |trail| <= |ladder|
    requires forall m :: 0 <= m < |trail| ==> trail[m] == EntryFor(rungs, start + m)
    ensures WithPassed(ladder, env, rungs, start, to, c, events)
         == events + (AsksOnWay(ladder, env, start, to, c) + CallsOn(ladder, env, trail, c))
  {
    PassedAreChecksAndCalls(ladder, env, rungs, start, to, c, events);
    WholeTrailNames(ladder, env, rungs, start, c, trail, to);
  }

  lemma {:induction false} CallLeads(ladder: seq<CircuitBreaker>, env: seq<Env>, k: nat, o: Outcome, ss: Stores,
                                     c: CircuitBreaker, s: Store, events: multiset<Runs.Event>)
    requires |env| == |ladder| && k < |ladder| && Leads(c.cfg, s, At(ss, c), events)
    ensures Leads(c.cfg, s, At(CalledOne(ladder[k], env[k], ss), c),
                  events + CallOf(ladder, env, Called(Call(k, o)), c))
  {
    var e := env[k];
    if ladder[k] == c {
      LeadsOn(c.cfg, s, At(ss, c), events, Runs.Observe(e.outcome, e.latencyMs, e.recordedMs, e.nowMs));
    } else {
      assert events + CallOf(ladder, env, Called(Call(k, o)), c) == events;
    }
  }

  lemma {:induction false} BothLead(ladder: seq<CircuitBreaker>, env: seq<Env>, j: nat, k: nat, ss: Stores,
                                    c: CircuitBreaker, s: Store, events: multiset<Runs.Event>)
    requires |env| == |ladder| && j < |ladder| && k < |ladder| && Leads(c.cfg, s, At(ss, c), events)
    ensures var x, y := Called(Call(j, env[j].outcome)), Called(Call(k, env[k].outcome));
            Leads(c.cfg, s, At(CalledOne(ladder[k], env[k], CalledOne(ladder[j], env[j], ss)), c),
                  events + (CallOf(ladder, env, x, c) + CallOf(ladder, env, y, c)))
  {
    var x := CallOf(ladder, env, Called(Call(j, env[j].outcome)), c);
    var y := CallOf(ladder, env, Called(Call(k, env[k].outcome)), c);
    CallLeads(ladder, env, j, env[j].outcome, ss, c, s, events);
    CallLeads(ladder, env, k, env[k].outcome, CalledOne(ladder[j], env[j], ss), c, s, events + x);
    assert events + (x + y) == events + x + y;
  }

  lemma {:induction false} CallsInPrefix(ladder: seq<CircuitBreaker>, env: seq<Env>, a: seq<Entry>, b: seq<Entry>,
                                         n: nat, c: CircuitBreaker)
    requires |env| == |ladder| && n <= |a|
    ensures CallsUpTo(ladder, env, a + b, n, c) == CallsUpTo(ladder, env, a, n, c)
  {
    if n > 0 { CallsInPrefix(ladder, env, a, b, n - 1, c); }
  }

  lemma {:induction false} CallsInSuffix(ladder: seq<CircuitBreaker>, env: seq<Env>, a: seq<Entry>, b: seq<Entry>,
                                         n: nat, c: CircuitBreaker)
    requires |env| == |ladder| && n <= |b|
    ensures CallsUpTo(ladder, env, a + b, |a| + n, c) == CallsOn(ladder, env, a, c) + CallsUpTo(ladder, env, b, n, c)
  {
    if n == 0 {
      CallsInPrefix(ladder, env, a, b, |a|, c);
    } else {
      CallsInSuffix(ladder, env, a, b, n - 1, c);
      assert (a + b)[|a| + n - 1] == b[n - 1];
    }
  }

  lemma {:induction false} CallsConcat(ladder: seq<CircuitBreaker>, env: seq<Env>, a: seq<Entry>, b: seq<Entry>,
                                       c: CircuitBreaker)
    requires |env| == |ladder|
    ensures CallsOn(ladder, env, a + b, c) == CallsOn(ladder, env, a, c) + CallsOn(ladder, env, b, c)
  {
    CallsInSuffix(ladder, env, a, b, |b|, c);
  }

  lemma {:induction false} TrailNames(ladder: seq<CircuitBreaker>, env: seq<Env>, x: Entry, y: Entry, c: CircuitBreaker)
    requires |env| == |ladder|
    ensures CallsOn(ladder, env, [x], c) == CallOf(ladder, env, x, c)
    ensures CallsOn(ladder, env, [x, y], c) == CallOf(ladder, env, x, c) + CallOf(ladder, env, y, c)
  {
    assert CallsUpTo(ladder, env, [x], 1, c) == CallsUpTo(ladder, env, [x], 0, c) + CallOf(ladder, env, x, c);
    assert CallsUpTo(ladder, env, [x, y], 1, c) == CallsUpTo(ladder, env, [x, y], 0, c) + CallOf(ladder, env, x, c);
    assert CallsUpTo(ladder, env, [x, y], 2, c) == CallsUpTo(ladder, env, [x, y], 1, c) + CallOf(ladder, env, y, c);
  }

  /** The trail of a race between rungs a and b. */
  function RaceTrail(env: seq<Env>, a: nat, b: nat, race: Race): seq<Entry>
    requires a < |env| && b < |env|
  {
    var first, second := Call(a, env[a].outcome), Call(b, env[b].outcome);
    if race.primaryInTime then [Called(first)] else Raced(first, second, race).routed.attempts
  }

  lemma {:induction false} RaceLeads(ladder: seq<CircuitBreaker>, env: seq<Env>, ss: Stores, a: nat, b: nat, race: Race,
                  c: CircuitBreaker, s: Store, events: multiset<Runs.Event>)
    requires |env| == |ladder| && a < |ladder| && b < |ladder| && Leads(c.cfg, s, At(ss, c), events)
    ensures Leads(c.cfg, s, At(StoresAfterRace(ladder, env, ss, a, b, race), c),
                  events + CallsOn(ladder, env, RaceTrail(env, a, b, race), c))
  {
    var (side, loserDone) := Winner(env[a].outcome, env[b].outcome, race);
    var x, y := Called(Call(a, env[a].outcome)), Called(Call(b, env[b].outcome));
    TrailNames(ladder, env, x, y, c);
    TrailNames(ladder, env, y, x, c);
    if race.primaryInTime || !loserDone {
      var k := if race.primaryInTime || side == Primary then a else b;
      CallLeads(ladder, env, k, env[k].outcome, ss, c, s, events);
    } else if race.hedgeRecordsFirst {
      BothLead(ladder, env, b, a, ss, c, s, events);
    } else {
      BothLead(ladder, env, a, b, ss, c, s, events);
    }
  }

  lemma {:induction false} StartLeads(ladder: seq<CircuitBreaker>, asks: seq<Ask>, env: seq<Env>, ss: Stores, a: nat,
                                      b: nat, race: Race, c: CircuitBreaker, trail: seq<Entry>, n: nat)
    requires |asks| == |env| == |ladder|
    requires trail == if a < |ladder| && b < |ladder| then RaceTrail(env, a, b, race) else []
    requires n == if a < |ladder| && b < |ladder| then b + 1 else |ladder|
    ensures Leads(c.cfg, At(ss, c), At(StoresAfterAsking(ladder, asks, env, ss, a, b, race), c),
                  AsksBefore(ladder, asks, n, c) + CallsOn(ladder, env, trail, c))
  {
    AskedLeads(ladder, asks, ss, n, c);
    if a < |ladder| && b < |ladder| {
      var asked := AsksBefore(ladder, asks, n, c);
      RaceLeads(ladder, env, AskedBy(ladder, asks, ss, n), a, b, race, c, At(ss, c), asked);
    } else {
      assert CallsOn(ladder, env, [], c) == multiset{};
      assert AsksBefore(ladder, asks, n, c) + multiset{} == AsksBefore(ladder, asks, n, c);
    }
  }

  lemma {:induction false} AskedLeads(ladder: seq<CircuitBreaker>, asks: seq<Ask>, ss: Stores, n: nat,
                                      c: CircuitBreaker)
    requires |asks| == |ladder|
    ensures Leads(c.cfg, At(ss, c), At(AskedBy(ladder, asks, ss, n), c), AsksBefore(ladder, asks, n, c))
  {
    NothingLeads(c.cfg, At(ss, c));
    AskingLeads(ladder, asks, ss, n, c, At(ss, c), multiset{});
    assert multiset{} + AsksBefore(ladder, asks, n, c) == AsksBefore(ladder, asks, n, c);
  }

  /** The trail of the hedged start is that of its race. */
  lemma {:induction false} StartTrail(ladder: seq<CircuitBreaker>, env: seq<Env>, rungs: seq<Rung>, race: Race)
    requires |env| == |rungs| == |ladder| && forall k :: 0 <= k < |ladder| ==> rungs[k].outcome == env[k].outcome
    ensures var a := NextAdmitted(rungs, 0);
            var b := NextAdmitted(rungs, a + 1);
            && AskedBefore(rungs) == (if a < |ladder| && b < |ladder| then b + 1 else |ladder|)
            && HedgedStart(rungs, race).0.routed.attempts ==
                 if a < |ladder| && b < |ladder| then RaceTrail(env, a, b, race) else []
  {
    var a := NextAdmitted(rungs, 0);
    if a < |ladder| && NextAdmitted(rungs, a + 1) < |ladder| {
      StartOfTwo(rungs, a, NextAdmitted(rungs, a + 1), race);
    }
  }

  lemma {:induction false} TrailLeads(ladder: seq<CircuitBreaker>, env: seq<Env>, ss: Stores, rungs: seq<Rung>,
                                      start: nat, c: CircuitBreaker, s: Store, events: multiset<Runs.Event>,
                                      trail: seq<Entry>, to: nat)
    requires FoundFrom(ladder, env, ss, rungs, start) && to == start + |trail| <= |ladder|
    requires forall m :: 0 <= m < |trail| ==> trail[m] == EntryFor(rungs, start + m)
    requires Leads(c.cfg, s, At(ss, c), events)
    ensures Leads(c.cfg, s, At(PassedBy(ladder, env, ss, start, to), c),
                  events + (AsksOnWay(ladder, env, start, to, c) + CallsOn(ladder, env, trail, c)))
  {
    PassingLeads(ladder, env, ss, rungs, start, to, c, s, events);
    WalkTrailNames(ladder, env, rungs, start, c, trail, to, events);
  }

  lemma {:induction false} BehindLeads(ladder: seq<CircuitBreaker>, env: seq<Env>, ss: Stores, rungs: seq<Rung>,
                                       start: nat, c: CircuitBreaker, s: Store, events: multiset<Runs.Event>,
                                       trail: seq<Entry>)
    requires FoundFrom(ladder, env, ss, rungs, start) && start <= |ladder| && Leads(c.cfg, s, At(ss, c), events)
    requires trail == PlainFrom(rungs, start).routed.attempts
    ensures Leads(c.cfg, s, At(StoresBehind(ladder, env, ss, rungs, false, start), c),
                  events + (AsksOnWay(ladder, env, start, start + |trail|, c) + CallsOn(ladder, env, trail, c)))
  {
    WalkEntries(rungs, start);
    TrailLeads(ladder, env, ss, rungs, start, c, s, events, trail, start + |trail|);
  }

  /** What a whole request does to one provider. */
  ghost predicate RequestLeads(ladder: seq<CircuitBreaker>, asks: seq<Ask>, env: seq<Env>, rungs: seq<Rung>,
                               hedge: bool, race: Race, c: CircuitBreaker, s: Store, t: Store)
    requires |asks| == |env| == |rungs| == |ladder|
  {
    Leads(c.cfg, s, t, AsksOn(ladder, asks, env, rungs, hedge, race, c)
                       + CallsOn(ladder, env, Routed(rungs, hedge, race).routed.attempts, c))
  }

  lemma {:induction false} PlainRequestLeads(ladder: seq<CircuitBreaker>, asks: seq<Ask>, env: seq<Env>, ss: Stores,
                                             rungs: seq<Rung>, race: Race, c: CircuitBreaker)
    requires |asks| == |env| == |ladder| && Presented(ladder, asks, env, ss, rungs, false, race)
    ensures RequestLeads(ladder, asks, env, rungs, false, race, c, At(ss, c),
                         At(StoresAfter(ladder, asks, env, ss, rungs, false, race), c))
  {
    var trail := PlainFrom(rungs, 0).routed.attempts;
    NothingLeads(c.cfg, At(ss, c));
    BehindLeads(ladder, env, ss, rungs, 0, c, At(ss, c), multiset{}, trail);
    var events := AsksOnWay(ladder, env, 0, |trail|, c) + CallsOn(ladder, env, trail, c);
    assert multiset{} + events == events;
  }

  /** The hedged start, and what follows it. */
  lemma {:induction false} HedgedRequestLeads(ladder: seq<CircuitBreaker>, asks: seq<Ask>, env: seq<Env>, ss: Stores,
                                              rungs: seq<Rung>, race: Race, c: CircuitBreaker)
    requires |asks| == |env| == |ladder| && Presented(ladder, asks, env, ss, rungs, true, race)
    ensures RequestLeads(ladder, asks, env, rungs, true, race, c, At(ss, c),
                         At(StoresAfter(ladder, asks, env, ss, rungs, true, race), c))
  {
    var (started, start) := HedgedStart(rungs, race);
    var raced := StoresAfterStart(ladder, asks, env, ss, rungs, race);
    var trail := started.routed.attempts;
    var asked := AsksBefore(ladder, asks, AskedBefore(rungs), c);
    HedgedStartLeads(ladder, asks, env, ss, rungs, race, c, trail);
    ResumedLeads(ladder, env, raced, rungs, started.routed.result.Some?, start, c, At(ss, c), asked, trail);
  }

  lemma {:induction false} ResumedLeads(ladder: seq<CircuitBreaker>, env: seq<Env>, raced: Stores, rungs: seq<Rung>,
                                        settled: bool, start: nat, c: CircuitBreaker, s: Store,
                                        asked: multiset<Runs.Event>, trail: seq<Entry>)
    requires |env| == |rungs| == |ladder| && start <= |ladder|
    requires forall k :: start <= k < |ladder| ==> FoundOnTheWay(ladder, env, raced, rungs, start, k)
    requires Leads(c.cfg, s, At(raced, c), asked + CallsOn(ladder, env, trail, c))
    ensures var whole := if settled then trail else trail + PlainFrom(rungs, start).routed.attempts;
            Leads(c.cfg, s, At(StoresBehind(ladder, env, raced, rungs, settled, start), c),
                  asked + AsksBehind(ladder, env, rungs, settled, start, c) + CallsOn(ladder, env, whole, c))
  {
    if settled {
      assert asked + multiset{} == asked;
    } else {
      var rest := PlainFrom(rungs, start).routed.attempts;
      var called := CallsOn(ladder, env, trail, c);
      BehindLeads(ladder, env, raced, rungs, start, c, s, asked + called, rest);
      CallsConcat(ladder, env, trail, rest, c);
      Pairwise(asked, called, AsksOnWay(ladder, env, start, start + |rest|, c), CallsOn(ladder, env, rest, c));
    }
  }

  lemma {:induction false} EveryProviderIsLed(ladder: seq<CircuitBreaker>, asks: seq<Ask>, env: seq<Env>, ss: Stores,
                                              rungs: seq<Rung>, hedge: bool, race: Race)
    requires |asks| == |env| == |ladder| && Presented(ladder, asks, env, ss, rungs, hedge, race)
    ensures var after := StoresAfter(ladder, asks, env, ss, rungs, hedge, race);
            forall c :: RequestLeads(ladder, asks, env, rungs, hedge, race, c, At(ss, c), At(after, c))
  {
    var after := StoresAfter(ladder, asks, env, ss, rungs, hedge, race);
    forall c ensures RequestLeads(ladder, asks, env, rungs, hedge, race, c, At(ss, c), At(after, c)) {
      if hedge {
        HedgedRequestLeads(ladder, asks, env, ss, rungs, race, c);
      } else {
        PlainRequestLeads(ladder, asks, env, ss, rungs, race, c);
      }
    }
  }

  lemma {:induction false} HedgedStartLeads(ladder: seq<CircuitBreaker>, asks: seq<Ask>, env: seq<Env>, ss: Stores,
                                            rungs: seq<Rung>, race: Race, c: CircuitBreaker, trail: seq<Entry>)
    requires |asks| == |env| == |ladder| && Presented(ladder, asks, env, ss, rungs, true, race)
    requires trail == HedgedStart(rungs, race).0.routed.attempts
    ensures Leads(c.cfg, At(ss, c), At(StoresAfterStart(ladder, asks, env, ss, rungs, race), c),
                  AsksBefore(ladder, asks, AskedBefore(rungs), c) + CallsOn(ladder, env, trail, c))
  {
    var a := NextAdmitted(rungs, 0);
    OutcomesAgree(ladder, asks, env, ss, rungs, race);
    StartTrail(ladder, env, rungs, race);
    StartLeads(ladder, asks, env, ss, a, NextAdmitted(rungs, a + 1), race, c, trail, AskedBefore(rungs));
  }

  lemma {:induction false} OutcomesAgree(ladder: seq<CircuitBreaker>, asks: seq<Ask>, env: seq<Env>, ss: Stores,
                                         rungs: seq<Rung>, race: Race)
    requires |asks| == |env| == |ladder| && Presented(ladder, asks, env, ss, rungs, true, race)
    ensures forall k :: 0 <= k < |ladder| ==> rungs[k].outcome == env[k].outcome
  {
    forall k | 0 <= k < |ladder| ensures rungs[k].outcome == env[k].outcome {
      assert FoundBefore(ladder, asks, env, ss, rungs, k);
    }
  }

  /** What a whole request is to one provider: just so many more events in the run of its circuit, an
      observe for every call its trail names on that provider, and a check for every rung asked that
      stands on it. If its stores were where a run left them, the request, hedged or not, leaves them
      where that run goes on to. So every theorem about runs, recovery, evidence, probe spacing and
      quarantine among them, holds of any sequence of requests. */
  lemma {:induction false} RequestExtendsRun(ladder: seq<CircuitBreaker>, asks: seq<Ask>, env: seq<Env>,
                                             rungs: seq<Rung>, hedge: bool, race: Race, c: CircuitBreaker, s: Store,
                                             t: Store, rs: seq<Store>, es: seq<Runs.Event>)
    returns (rs': seq<Store>, more: seq<Runs.Event>)
    requires |asks| == |env| == |rungs| == |ladder|
    requires RequestLeads(ladder, asks, env, rungs, hedge, race, c, s, t)
    requires Runs.IsRun(c.cfg, rs, es) && rs[|es|] == s
    ensures Runs.IsRun(c.cfg, rs', es + more) && rs <= rs' && rs'[|es + more|] == t
    ensures multiset(more) == AsksOn(ladder, asks, env, rungs, hedge, race, c)
                              + CallsOn(ladder, env, Routed(rungs, hedge, race).routed.attempts, c)
  {
    var events := AsksOn(ladder, asks, env, rungs, hedge, race, c)
                  + CallsOn(ladder, env, Routed(rungs, hedge, race).routed.attempts, c);
    var chain, moreEs :|
      Chain(c.cfg, chain, moreEs) && chain[0] == s && chain[|moreEs|] == t && multiset(moreEs) == events;
    more := moreEs;
    ChainExtendsRun(c.cfg, rs, es, chain, more);
    rs' := rs + chain[1..];
  }
}
