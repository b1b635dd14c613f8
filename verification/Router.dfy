/** The ladder walk and its hedged variant (gateway/router.py), and the status an outcome is
    answered with (gateway/main.py). Circuits, providers and the scheduler are the environment:
    each rung comes with the answers its circuit gives and the outcome its provider would return,
    and the race comes with the order in which its two calls land. */
module Router {
  import opened Outcomes

  /** One rung as this request finds it. The circuit is asked once before a race and again by the
      plain walk, and may answer differently. */
  datatype Rung = Rung(admitsRace: bool, admitsWalk: bool, outcome: Outcome)

  datatype Call = Call(rung: nat, outcome: Outcome)

  /** An entry of the attempts trail. */
  datatype Entry = Skipped(rung: nat) | Called(call: Call)

  datatype RouteOutcome = RouteOutcome(result: Option<Call>, attempts: seq<Entry>)

  /** What route returned, and every provider call it started, in order. */
  datatype Walk = Walk(routed: RouteOutcome, dialled: seq<nat>)

  datatype Order = PrimaryFirst | HedgeFirst | SameTick

  /** How the race goes: whether the primary answers within the hedge budget, which call lands
      first, whether a cancelled loser had already landed, and, of two calls that both landed, which
      one was recorded first. */
  datatype Race = Race(primaryInTime: bool, order: Order, loserLands: bool, hedgeRecordsFirst: bool)

  // ---------------------------------------------------------------- specification

  function After(attempts: seq<Entry>, dialled: seq<nat>, rest: Walk): Walk {
    Walk(RouteOutcome(rest.routed.result, attempts + rest.routed.attempts), dialled + rest.dialled)
  }

  lemma AfterTwice(a: seq<Entry>, c: seq<nat>, b: seq<Entry>, d: seq<nat>, rest: Walk)
    ensures After(a, c, After(b, d, rest)) == After(a + b, c + d, rest)
  {}

  /** The plain walk from rung i on. */
  function PlainFrom(rungs: seq<Rung>, i: nat): Walk
    decreases |rungs| - i
  {
    if i >= |rungs| then Walk(RouteOutcome(None, []), [])
    else if !rungs[i].admitsWalk then After([Skipped(i)], [], PlainFrom(rungs, i + 1))
    else
      var call := Call(i, rungs[i].outcome);
      if IsFinal(call.outcome) then Walk(RouteOutcome(Some(call), [Called(call)]), [i])
      else After([Called(call)], [i], PlainFrom(rungs, i + 1))
  }

  /** The first rung at or after i whose circuit takes traffic before the race, or |rungs|. */
  function NextAdmitted(rungs: seq<Rung>, i: nat): (k: nat)
    ensures i <= |rungs| ==> i <= k <= |rungs|
    ensures k < |rungs| ==> rungs[k].admitsRace
    ensures forall m :: i <= m < k && m < |rungs| ==> !rungs[m].admitsRace
    decreases |rungs| - i
  {
    if i >= |rungs| then |rungs| else if rungs[i].admitsRace then i else NextAdmitted(rungs, i + 1)
  }

  function AdmittedFrom(rungs: seq<Rung>, i: nat, limit: nat): seq<nat>
    decreases |rungs| - i
  {
    if limit == 0 || i >= |rungs| then []
    else if rungs[i].admitsRace then [i] + AdmittedFrom(rungs, i + 1, limit - 1)
    else AdmittedFrom(rungs, i + 1, limit)
  }

  /** Admitted positions are found one after the other. */
  lemma {:induction false} AdmittedFirst(rungs: seq<Rung>, i: nat, limit: nat)
    requires limit >= 1
    ensures var k := NextAdmitted(rungs, i);
            AdmittedFrom(rungs, i, limit) == if k < |rungs| then [k] + AdmittedFrom(rungs, k + 1, limit - 1) else []
    decreases |rungs| - i
  {
    if i < |rungs| && !rungs[i].admitsRace {
      AdmittedFirst(rungs, i + 1, limit);
    }
  }

  datatype Side = Primary | Hedge

  /** The winner of a race that both calls have entered, and whether the loser has a result. */
  function Winner(primary: Outcome, hedge: Outcome, race: Race): (Side, bool) {
    match race.order
    case SameTick => (if IsFinal(primary) then Primary else Hedge, true)
    case PrimaryFirst =>
      if IsFinal(primary) then (Primary, race.loserLands)
      else (if IsFinal(hedge) then Hedge else Primary, true)
    case HedgeFirst =>
      if IsFinal(hedge) then (Hedge, race.loserLands)
      else (if IsFinal(primary) then Primary else Hedge, true)
  }

  /** What a race puts in the trail: the winner, then the loser if it has a result. */
  function Trail(winner: Call, loser: Call, loserDone: bool): seq<Entry> {
    if loserDone then [Called(winner), Called(loser)] else [Called(winner)]
  }

  /** What a race that both calls have entered leaves behind. */
  function Raced(first: Call, second: Call, race: Race): Walk {
    var (side, loserDone) := Winner(first.outcome, second.outcome, race);
    var winner, loser := if side == Primary then first else second, if side == Primary then second else first;
    Walk(RouteOutcome(if IsFinal(winner.outcome) then Some(winner) else None, Trail(winner, loser, loserDone)),
         [first.rung, second.rung])
  }

  /** The hedged start: two admissible rungs raced if there are two, and the rung the plain walk goes on from. */
  function HedgedStart(rungs: seq<Rung>, race: Race): (started: (Walk, nat))
    ensures started.1 <= |rungs|
  {
    var a := NextAdmitted(rungs, 0);
    var b := NextAdmitted(rungs, a + 1);
    if a >= |rungs| || b >= |rungs| then (Walk(RouteOutcome(None, []), []), 0)
    else
      var first, second := Call(a, rungs[a].outcome), Call(b, rungs[b].outcome);
      if race.primaryInTime then
        if IsFinal(first.outcome) then (Walk(RouteOutcome(Some(first), [Called(first)]), [a]), 0)
        else (Walk(RouteOutcome(None, [Called(first)]), [a]), a + 1)
      else
        var raced := Raced(first, second, race);
        (raced, if raced.routed.result.Some? then 0 else b + 1)
  }

  function Routed(rungs: seq<Rung>, hedge: bool, race: Race): Walk {
    if !hedge then PlainFrom(rungs, 0)
    else
      var (started, start) := HedgedStart(rungs, race);
      if started.routed.result.Some? then started
      else After(started.routed.attempts, started.dialled, PlainFrom(rungs, start))
  }

  /** The call of the last entry that is not a skip. */
  function LastFailure(attempts: seq<Entry>): Option<Call> {
    if attempts == [] then None
    else if attempts[|attempts| - 1].Called? then Some(attempts[|attempts| - 1].call)
    else LastFailure(attempts[..|attempts| - 1])
  }

  function Lookup(o: Outcome): Option<int> {
    if o in STATUS_BY_OUTCOME then Some(STATUS_BY_OUTCOME[o]) else None
  }

  /** The status of an exhausted ladder; None is a KeyError. */
  function ExhaustedStatus(r: RouteOutcome): Option<int> {
    var last := LastFailure(r.attempts);
    if last.Some? then Lookup(last.value.outcome) else Some(503)
  }

  /** The status a routed request is answered with; None is a KeyError. */
  function StatusOf(r: RouteOutcome): Option<int> {
    if r.result.None? then ExhaustedStatus(r)
    else if !IsOk(r.result.value.outcome) then Lookup(r.result.value.outcome)
    else Some(200)
  }

  // ---------------------------------------------------------------- the walk as it runs

  /** Up to `limit` positions, in ladder order, whose circuits admit this request. */
  method Admissible(rungs: seq<Rung>, limit: nat) returns (admitted: seq<nat>)
    requires limit >= 1
    ensures admitted == AdmittedFrom(rungs, 0, limit)
  {
    admitted := [];
    for i := 0 to |rungs|
      invariant |admitted| < limit
      invariant admitted + AdmittedFrom(rungs, i, limit - |admitted|) == AdmittedFrom(rungs, 0, limit)
    {
      if rungs[i].admitsRace {
        assert admitted + ([i] + AdmittedFrom(rungs, i + 1, limit - |admitted| - 1))
            == admitted + [i] + AdmittedFrom(rungs, i + 1, limit - |admitted| - 1);
        admitted := admitted + [i];
        if |admitted| == limit {
          return;
        }
      }
    }
  }

  /** Which call the race is decided for, and whether the other one has a result to report. */
  method FirstUsable(primary: Outcome, hedge: Outcome, race: Race) returns (winner: Side, loserDone: bool)
    ensures (winner, loserDone) == Winner(primary, hedge, race)
    ensures IsFinal(primary) || IsFinal(hedge) ==> IsFinal(if winner == Primary then primary else hedge)
  {
    if race.order == SameTick {
      return if IsFinal(primary) then Primary else Hedge, true;
    }
    var first, other := if race.order == PrimaryFirst then Primary else Hedge,
                        if race.order == PrimaryFirst then Hedge else Primary;
    if IsFinal(if first == Primary then primary else hedge) {
      return first, race.loserLands;
    }
    winner := if IsFinal(if other == Primary then primary else hedge) then other else first;
    loserDone := true;
  }

  method RunHedgedStart(rungs: seq<Rung>, race: Race) returns (started: Walk, start: nat)
    ensures (started, start) == HedgedStart(rungs, race)
  {
    var admitted := Admissible(rungs, 2);
    AdmittedFirst(rungs, 0, 2);
    AdmittedFirst(rungs, NextAdmitted(rungs, 0) + 1, 1);
    if |admitted| < 2 {
      return Walk(RouteOutcome(None, []), []), 0;
    }
    var a, b := admitted[0], admitted[1];
    var first, second := Call(a, rungs[a].outcome), Call(b, rungs[b].outcome);

    var attempts: seq<Entry> := [];
    var dialled := [a];
    if race.primaryInTime {
      attempts := attempts + [Called(first)];
      assert attempts == [Called(first)];
      if IsFinal(first.outcome) {
        return Walk(RouteOutcome(Some(first), attempts), dialled), 0;
      }
      return Walk(RouteOutcome(None, attempts), dialled), a + 1;
    }

    dialled := dialled + [b];
    assert dialled == [a, b];
    var side, loserDone := FirstUsable(first.outcome, second.outcome, race);
    var winner, loser := if side == Primary then first else second, if side == Primary then second else first;
    attempts := attempts + [Called(winner)];
    if loserDone {
      attempts := attempts + [Called(loser)];
    }
    assert attempts == Trail(winner, loser, loserDone);
    if IsFinal(winner.outcome) {
      return Walk(RouteOutcome(Some(winner), attempts), dialled), 0;
    }
    return Walk(RouteOutcome(None, attempts), dialled), b + 1;
  }

  /** One request: the hedged start if its class hedges, then rung by rung to the first final result. */
  method Route(rungs: seq<Rung>, hedge: bool, race: Race) returns (walk: Walk)
    ensures walk == Routed(rungs, hedge, race)
  {
    var attempts: seq<Entry> := [];
    var dialled: seq<nat> := [];
    var start := 0;

    if hedge {
      var started;
      started, start := RunHedgedStart(rungs, race);
      attempts, dialled := attempts + started.routed.attempts, dialled + started.dialled;
      if started.routed.result.Some? {
        return Walk(RouteOutcome(started.routed.result, attempts), dialled);
      }
    }

    var i := start;
    while i < |rungs|
      invariant After(attempts, dialled, PlainFrom(rungs, i)) == Routed(rungs, hedge, race)
    {
      if !rungs[i].admitsWalk {
        AfterTwice(attempts, dialled, [Skipped(i)], [], PlainFrom(rungs, i + 1));
        attempts := attempts + [Skipped(i)];
        assert dialled + [] == dialled;
      } else {
        var call := Call(i, rungs[i].outcome);
        if !IsFinal(call.outcome) {
          AfterTwice(attempts, dialled, [Called(call)], [i], PlainFrom(rungs, i + 1));
        }
        attempts, dialled := attempts + [Called(call)], dialled + [i];
        if IsFinal(call.outcome) {
          return Walk(RouteOutcome(Some(call), attempts), dialled);
        }
      }
      i := i + 1;
    }
    assert attempts + [] == attempts && dialled + [] == dialled;
    return Walk(RouteOutcome(None, attempts), dialled);
  }
}
