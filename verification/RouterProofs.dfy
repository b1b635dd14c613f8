/** What every walk of the ladder guarantees, plain or hedged, in every order the race can land. */
module RouterProofs {
  import opened Outcomes
  import opened Router

  predicate Settles(r: Rung) { r.admitsWalk && IsFinal(r.outcome) }

  /** The first rung at or after i that ends a plain walk, or |rungs|. */
  function FirstSettling(rungs: seq<Rung>, i: nat): (k: nat)
    ensures i <= |rungs| ==> i <= k <= |rungs|
    ensures k < |rungs| ==> Settles(rungs[k])
    ensures forall m :: i <= m < k && m < |rungs| ==> !Settles(rungs[m])
    decreases |rungs| - i
  {
    if i >= |rungs| then |rungs| else if Settles(rungs[i]) then i else FirstSettling(rungs, i + 1)
  }

  function EntryFor(rungs: seq<Rung>, i: nat): Entry
    requires i < |rungs|
  {
    if rungs[i].admitsWalk then Called(Call(i, rungs[i].outcome)) else Skipped(i)
  }

  /** The plain walk answers from the first admitted rung whose outcome is ok or a caller fault,
      and its trail has one entry for each rung visited, in order. */
  lemma {:induction false} PlainWalkFindsFirst(rungs: seq<Rung>, i: nat)
    requires i <= |rungs|
    ensures var w, k := PlainFrom(rungs, i), FirstSettling(rungs, i);
            && w.routed.result == (if k < |rungs| then Some(Call(k, rungs[k].outcome)) else None)
            && |w.routed.attempts| == (if k < |rungs| then k + 1 - i else |rungs| - i)
            && forall m :: 0 <= m < |w.routed.attempts| ==> w.routed.attempts[m] == EntryFor(rungs, i + m)
    decreases |rungs| - i
  {
    if i < |rungs| && !Settles(rungs[i]) {
      PlainWalkFindsFirst(rungs, i + 1);
      var rest := PlainFrom(rungs, i + 1);
      var w := PlainFrom(rungs, i);
      assert w.routed.attempts == [EntryFor(rungs, i)] + rest.routed.attempts;
    }
  }

  // ---------------------------------------------------------------- what was dialled

  ghost predicate Increasing(s: seq<nat>, from: nat, below: nat) {
    && (forall i :: 0 <= i < |s| ==> from <= s[i] < below)
    && (forall i, j :: 0 <= i < j < |s| ==> s[i] < s[j])
  }

  lemma {:induction false} PlainDialsIncrease(rungs: seq<Rung>, i: nat)
    ensures Increasing(PlainFrom(rungs, i).dialled, i, |rungs|)
    decreases |rungs| - i
  {
    if i < |rungs| && !Settles(rungs[i]) {
      PlainDialsIncrease(rungs, i + 1);
    }
  }

  /** The rungs dialled by one request strictly increase, across the race and the resumed walk,
      even if circuits change their mind in between: no rung is called twice. */
  lemma DialsIncrease(rungs: seq<Rung>, hedge: bool, race: Race)
    ensures Increasing(Routed(rungs, hedge, race).dialled, 0, |rungs|)
  {
    if !hedge {
      PlainDialsIncrease(rungs, 0);
    } else {
      var (started, start) := HedgedStart(rungs, race);
      PlainDialsIncrease(rungs, start);
    }
  }

  function CalledIn(e: Entry): multiset<nat> {
    if e.Called? then multiset{e.call.rung} else multiset{}
  }

  function CalledUpTo(attempts: seq<Entry>, n: nat): multiset<nat>
    requires n <= |attempts|
  {
    if n == 0 then multiset{} else CalledUpTo(attempts, n - 1) + CalledIn(attempts[n - 1])
  }

  /** The rungs the trail says were called. */
  function CalledRungs(attempts: seq<Entry>): multiset<nat> {
    CalledUpTo(attempts, |attempts|)
  }

  lemma {:induction false} CalledInPrefix(a: seq<Entry>, b: seq<Entry>, n: nat)
    requires n <= |a|
    ensures CalledUpTo(a + b, n) == CalledUpTo(a, n)
  {
    if n > 0 { CalledInPrefix(a, b, n - 1); }
  }

  lemma {:induction false} CalledInSuffix(a: seq<Entry>, b: seq<Entry>, n: nat)
    requires n <= |b|
    ensures CalledUpTo(a + b, |a| + n) == CalledRungs(a) + CalledUpTo(b, n)
  {
    if n == 0 {
      CalledInPrefix(a, b, |a|);
    } else {
      CalledInSuffix(a, b, n - 1);
      assert (a + b)[|a| + n - 1] == b[n - 1];
    }
  }

  lemma CalledRungsConcat(a: seq<Entry>, b: seq<Entry>)
    ensures CalledRungs(a + b) == CalledRungs(a) + CalledRungs(b)
  {
    CalledInSuffix(a, b, |b|);
  }

  /** Every call in the trail carries the outcome its provider returned. */
  ghost predicate Truthful(rungs: seq<Rung>, attempts: seq<Entry>) {
    forall e :: e in attempts && e.Called? ==> e.call.rung < |rungs| && e.call.outcome == rungs[e.call.rung].outcome
  }

  ghost predicate AllProviderFaults(attempts: seq<Entry>) {
    forall e :: e in attempts && e.Called? ==> KindOf(e.call.outcome) == ProviderFault
  }

  /** The trail of a walk that found nothing: complete, truthful, and nothing but trippable failures. */
  ghost predicate HonestlyExhausted(rungs: seq<Rung>, w: Walk) {
    && CalledRungs(w.routed.attempts) == multiset(w.dialled)
    && Truthful(rungs, w.routed.attempts)
    && AllProviderFaults(w.routed.attempts)
  }

  lemma {:induction false} PlainExhaustsHonestly(rungs: seq<Rung>, i: nat)
    requires PlainFrom(rungs, i).routed.result.None?
    ensures HonestlyExhausted(rungs, PlainFrom(rungs, i))
    decreases |rungs| - i
  {
    if i < |rungs| {
      PlainExhaustsHonestly(rungs, i + 1);
      assert CalledUpTo([EntryFor(rungs, i)], 1) == CalledIn(EntryFor(rungs, i));
      CalledRungsConcat([EntryFor(rungs, i)], PlainFrom(rungs, i + 1).routed.attempts);
    }
  }

  /** A race that settles nothing leaves both calls in the trail, both trippable failures. */
  lemma LostRace(primary: Outcome, hedge: Outcome, race: Race)
    ensures var (side, loserDone) := Winner(primary, hedge, race);
            !IsFinal(if side == Primary then primary else hedge) ==> loserDone && !IsFinal(primary) && !IsFinal(hedge)
  {}

  lemma {:induction false} OneCalled(x: Call)
    ensures CalledRungs([Called(x)]) == multiset{x.rung}
  {
    var trail := [Called(x)];
    assert CalledUpTo(trail, 1) == CalledUpTo(trail, 0) + CalledIn(trail[0]);
  }

  lemma {:induction false} TwoCalled(x: Call, y: Call)
    ensures CalledRungs([Called(x), Called(y)]) == multiset{x.rung, y.rung}
  {
    OneCalled(x);
    OneCalled(y);
    CalledRungsConcat([Called(x)], [Called(y)]);
    assert [Called(x)] + [Called(y)] == [Called(x), Called(y)];
  }

  lemma {:induction false} TwoDials(a: nat, b: nat, dialled: seq<nat>)
    requires dialled == [a, b] || dialled == [b, a]
    ensures multiset(dialled) == multiset{a, b}
  {}

  lemma {:induction false} TwoLostCalls(rungs: seq<Rung>, x: Call, y: Call, dialled: seq<nat>)
    requires x.rung < |rungs| && x.outcome == rungs[x.rung].outcome && !IsFinal(x.outcome)
    requires y.rung < |rungs| && y.outcome == rungs[y.rung].outcome && !IsFinal(y.outcome)
    requires dialled == [x.rung, y.rung] || dialled == [y.rung, x.rung]
    ensures HonestlyExhausted(rungs, Walk(RouteOutcome(None, Trail(x, y, true)), dialled))
  {
    TwoCalled(x, y);
    TwoDials(x.rung, y.rung, dialled);
  }

  lemma {:induction false} StartExhaustsHonestly(rungs: seq<Rung>, race: Race)
    requires HedgedStart(rungs, race).0.routed.result.None?
    ensures HonestlyExhausted(rungs, HedgedStart(rungs, race).0)
  {
    var a := NextAdmitted(rungs, 0);
    var b := NextAdmitted(rungs, a + 1);
    if a < |rungs| && b < |rungs| {
      var first, second := Call(a, rungs[a].outcome), Call(b, rungs[b].outcome);
      if race.primaryInTime {
        assert CalledUpTo([Called(first)], 1) == CalledIn(Called(first));
      } else {
        LostRace(first.outcome, second.outcome, race);
        TwoLostCalls(rungs, first, second, [a, b]);
        TwoLostCalls(rungs, second, first, [a, b]);
      }
    }
  }

  /** The last failure is the last entry that is not a skip, and there is one unless nothing ran. */
  lemma {:induction false} LastFailureIsLastCall(attempts: seq<Entry>)
    ensures LastFailure(attempts).None? <==> CalledRungs(attempts) == multiset{}
    ensures LastFailure(attempts).Some? ==>
              exists k :: 0 <= k < |attempts| && attempts[k] == Called(LastFailure(attempts).value)
                          && forall m :: k < m < |attempts| ==> attempts[m].Skipped?
  {
    if attempts != [] {
      var init, last := attempts[..|attempts| - 1], attempts[|attempts| - 1];
      LastFailureIsLastCall(init);
      assert attempts == init + [last];
      CalledInPrefix(init, [last], |init|);
      if last.Called? {
        assert attempts[|attempts| - 1] == Called(LastFailure(attempts).value);
      }
    }
  }

  /** Exhaustion is honest, hedged or not: a walk without a result dialled exactly the calls in
      its trail and each of them is a trippable failure. So the caller is told 503 exactly when
      nothing ran, otherwise 429, 502 or 504 and never 400, and the status lookup cannot miss. */
  lemma ExhaustionIsHonest(rungs: seq<Rung>, hedge: bool, race: Race)
    requires Routed(rungs, hedge, race).routed.result.None?
    ensures var w := Routed(rungs, hedge, race);
            && HonestlyExhausted(rungs, w)
            && (LastFailure(w.routed.attempts).None? <==> w.dialled == [])
            && ExhaustedStatus(w.routed).Some?
            && (ExhaustedStatus(w.routed).value == 503 <==> w.dialled == [])
            && ExhaustedStatus(w.routed).value in {429, 502, 503, 504}
  {
    var w := Routed(rungs, hedge, race);
    if !hedge {
      PlainExhaustsHonestly(rungs, 0);
    } else {
      var (started, start) := HedgedStart(rungs, race);
      StartExhaustsHonestly(rungs, race);
      PlainExhaustsHonestly(rungs, start);
      CalledRungsConcat(started.routed.attempts, PlainFrom(rungs, start).routed.attempts);
    }
    LastFailureIsLastCall(w.routed.attempts);
    assert |multiset(w.dialled)| == |w.dialled|;
    var last := LastFailure(w.routed.attempts);
    if last.Some? {
      TaxonomySplits(last.value.outcome);
    }
  }

  /** What an exhausted ladder tells the caller is the status of the last call in its trail, whatever
      was skipped after it. */
  lemma ExhaustionReportsTheLastCall(rungs: seq<Rung>, hedge: bool, race: Race)
    requires Routed(rungs, hedge, race).routed.result.None? && Routed(rungs, hedge, race).dialled != []
    ensures var r := Routed(rungs, hedge, race).routed;
            exists k :: 0 <= k < |r.attempts| && IsLastCall(r.attempts, k)
                        && r.attempts[k].call.outcome in STATUS_BY_OUTCOME
                        && ExhaustedStatus(r) == Some(STATUS_BY_OUTCOME[r.attempts[k].call.outcome])
  {
    var attempts := Routed(rungs, hedge, race).routed.attempts;
    ExhaustionIsHonest(rungs, hedge, race);
    LastFailureIsLastCall(attempts);
    var k :| 0 <= k < |attempts| && attempts[k] == Called(LastFailure(attempts).value)
             && forall m :: k < m < |attempts| ==> attempts[m].Skipped?;
    assert IsLastCall(attempts, k);
    assert k < |attempts| && attempts[k] in attempts;
    TaxonomySplits(attempts[k].call.outcome);
  }

  ghost predicate IsLastCall(attempts: seq<Entry>, k: nat)
    requires k < |attempts|
  {
    attempts[k].Called? && forall m :: k < m < |attempts| ==> attempts[m].Skipped?
  }

  /** The status of every routed request: 200 iff a provider answered, 400 iff it ended on a
      caller fault, and otherwise one of the exhausted statuses. */
  lemma StatusTellsWhatHappened(rungs: seq<Rung>, hedge: bool, race: Race)
    ensures var r := Routed(rungs, hedge, race).routed;
            && StatusOf(r).Some?
            && (StatusOf(r).value == 200 <==> r.result.Some? && IsOk(r.result.value.outcome))
            && (StatusOf(r).value == 400 <==> r.result.Some? && KindOf(r.result.value.outcome) == CallerFault)
            && StatusOf(r).value in {200, 400, 429, 502, 503, 504}
  {
    var r := Routed(rungs, hedge, race).routed;
    if r.result.None? {
      ExhaustionIsHonest(rungs, hedge, race);
    } else {
      ResultIsFinal(rungs, hedge, race);
      TaxonomySplits(r.result.value.outcome);
    }
  }

  lemma ResultIsFinal(rungs: seq<Rung>, hedge: bool, race: Race)
    ensures var r := Routed(rungs, hedge, race).routed;
            r.result.Some? ==> IsFinal(r.result.value.outcome)
                               && r.result.value.rung < |rungs|
                               && r.result.value.outcome == rungs[r.result.value.rung].outcome
  {
    PlainWalkFindsFirst(rungs, 0);
    if hedge {
      var (started, start) := HedgedStart(rungs, race);
      if start <= |rungs| { PlainWalkFindsFirst(rungs, start); }
    }
  }

  // ---------------------------------------------------------------- the trail

  /** The trail next to the calls really made; missing counts the calls it leaves out. */
  ghost predicate TrailMatches(rungs: seq<Rung>, w: Walk, missing: nat) {
    && Truthful(rungs, w.routed.attempts)
    && CalledRungs(w.routed.attempts) <= multiset(w.dialled)
    && |CalledRungs(w.routed.attempts)| + missing == |w.dialled|
    && (w.routed.result.Some? ==> Called(w.routed.result.value) in w.routed.attempts)
  }

  lemma OneCallMatches(rungs: seq<Rung>, call: Call, result: Option<Call>)
    requires call.rung < |rungs| && call.outcome == rungs[call.rung].outcome
    requires result == None || result == Some(call)
    ensures TrailMatches(rungs, Walk(RouteOutcome(result, [Called(call)]), [call.rung]), 0)
  {
    var trail := [Called(call)];
    assert CalledUpTo(trail, 1) == CalledUpTo(trail, 0) + CalledIn(trail[0]);
    assert trail[0] == Called(call);
  }

  lemma OneSkipMatches(rungs: seq<Rung>, i: nat)
    ensures TrailMatches(rungs, Walk(RouteOutcome(None, [Skipped(i)]), []), 0)
  {
    var trail := [Skipped(i)];
    assert CalledUpTo(trail, 1) == CalledUpTo(trail, 0) + CalledIn(trail[0]);
  }

  lemma AfterMatches(rungs: seq<Rung>, head: Walk, missing: nat, rest: Walk)
    requires TrailMatches(rungs, head, missing) && TrailMatches(rungs, rest, 0)
    ensures TrailMatches(rungs, After(head.routed.attempts, head.dialled, rest), missing)
  {
    CalledRungsConcat(head.routed.attempts, rest.routed.attempts);
    assert multiset(head.dialled + rest.dialled) == multiset(head.dialled) + multiset(rest.dialled);
  }

  lemma {:induction false} PlainTrailMatches(rungs: seq<Rung>, i: nat)
    ensures TrailMatches(rungs, PlainFrom(rungs, i), 0)
    decreases |rungs| - i
  {
    if i < |rungs| {
      var call := Call(i, rungs[i].outcome);
      if Settles(rungs[i]) {
        OneCallMatches(rungs, call, Some(call));
      } else {
        PlainTrailMatches(rungs, i + 1);
        if rungs[i].admitsWalk {
          OneCallMatches(rungs, call, None);
          AfterMatches(rungs, Walk(RouteOutcome(None, [Called(call)]), [i]), 0, PlainFrom(rungs, i + 1));
        } else {
          OneSkipMatches(rungs, i);
          AfterMatches(rungs, Walk(RouteOutcome(None, [Skipped(i)]), []), 0, PlainFrom(rungs, i + 1));
        }
      }
    }
  }

  lemma RaceTrailMatches(rungs: seq<Rung>, winner: Call, loser: Call, loserDone: bool, result: Option<Call>,
                         dialled: seq<nat>)
    requires winner.rung < |rungs| && winner.outcome == rungs[winner.rung].outcome
    requires loser.rung < |rungs| && loser.outcome == rungs[loser.rung].outcome
    requires multiset(dialled) == multiset{winner.rung, loser.rung}
    requires result == None || result == Some(winner)
    ensures TrailMatches(rungs, Walk(RouteOutcome(result, Trail(winner, loser, loserDone)), dialled),
            if loserDone then 0 else 1)
  {
    OneCallMatches(rungs, winner, result);
    assert |dialled| == |multiset(dialled)|;
    if loserDone {
      OneCallMatches(rungs, loser, None);
      CalledRungsConcat([Called(winner)], [Called(loser)]);
      assert Trail(winner, loser, true) == [Called(winner)] + [Called(loser)];
    }
  }

  lemma EitherSideMatches(rungs: seq<Rung>, first: Call, second: Call, race: Race)
    requires first.rung < |rungs| && first.outcome == rungs[first.rung].outcome
    requires second.rung < |rungs| && second.outcome == rungs[second.rung].outcome
    ensures var loserDone := Winner(first.outcome, second.outcome, race).1;
            TrailMatches(rungs, Raced(first, second, race), if loserDone then 0 else 1)
  {
    var (side, loserDone) := Winner(first.outcome, second.outcome, race);
    var winner, loser := if side == Primary then first else second, if side == Primary then second else first;
    RaceTrailMatches(rungs, winner, loser, loserDone, if IsFinal(winner.outcome) then Some(winner) else None,
                     [first.rung, second.rung]);
  }

  /** The hedge lost its second call: the race was fired, the first call to land ended the walk,
      and the other one was cancelled before it landed. */
  predicate LoserCancelled(rungs: seq<Rung>, race: Race) {
    var a := NextAdmitted(rungs, 0);
    var b := NextAdmitted(rungs, a + 1);
    && a < |rungs| && b < |rungs| && !race.primaryInTime && !race.loserLands
    && (|| (race.order == PrimaryFirst && IsFinal(rungs[a].outcome))
        || (race.order == HedgeFirst && IsFinal(rungs[b].outcome)))
  }

  lemma NothingMatches(rungs: seq<Rung>)
    ensures TrailMatches(rungs, Walk(RouteOutcome(None, []), []), 0)
  {}

  lemma StartTrailMatches(rungs: seq<Rung>, race: Race)
    ensures TrailMatches(rungs, HedgedStart(rungs, race).0, if LoserCancelled(rungs, race) then 1 else 0)
  {
    var a := NextAdmitted(rungs, 0);
    var b := NextAdmitted(rungs, a + 1);
    if a < |rungs| && b < |rungs| {
      var first, second := Call(a, rungs[a].outcome), Call(b, rungs[b].outcome);
      OneCallMatches(rungs, first, if IsFinal(first.outcome) then Some(first) else None);
      EitherSideMatches(rungs, first, second, race);
      StartLoses(rungs, first, second, race);
    } else {
      NothingMatches(rungs);
    }
  }

  lemma StartLoses(rungs: seq<Rung>, first: Call, second: Call, race: Race)
    requires first.rung == NextAdmitted(rungs, 0) < |rungs|
             && second.rung == NextAdmitted(rungs, first.rung + 1) < |rungs|
    requires first.outcome == rungs[first.rung].outcome && second.outcome == rungs[second.rung].outcome
    ensures LoserCancelled(rungs, race) <==> !race.primaryInTime && !Winner(first.outcome, second.outcome, race).1
  {}

  /** Whom a race between these two calls is decided for: the one whose result ends the walk if only
      one does; else the first to land, and in a tie the primary if both do and the hedge if neither. */
  function DecidedFor(first: Call, second: Call, order: Order): Call {
    if IsFinal(first.outcome) && IsFinal(second.outcome) then if order == HedgeFirst then second else first
    else if IsFinal(first.outcome) then first
    else if IsFinal(second.outcome) then second
    else if order == PrimaryFirst then first else second
  }

  /** A race that is fired comes to just this: it answers with the call it is decided for if that
      ends the walk; its trail is that call, and then the other unless that was cancelled; and if it
      settles nothing the walk goes on behind the hedge. */
  lemma {:induction false} RaceIsDecided(rungs: seq<Rung>, race: Race)
    requires NextAdmitted(rungs, NextAdmitted(rungs, 0) + 1) < |rungs| && NextAdmitted(rungs, 0) < |rungs|
    requires !race.primaryInTime
    ensures var a := NextAdmitted(rungs, 0);
            var b := NextAdmitted(rungs, a + 1);
            var first, second := Call(a, rungs[a].outcome), Call(b, rungs[b].outcome);
            var winner := DecidedFor(first, second, race.order);
            var loser := if winner == first then second else first;
            var (started, start) := HedgedStart(rungs, race);
            && started.routed.result == (if IsFinal(winner.outcome) then Some(winner) else None)
            && started.routed.attempts ==
                 (if LoserCancelled(rungs, race) then [Called(winner)] else [Called(winner), Called(loser)])
            && started.dialled == [a, b]
            && (started.routed.result.None? ==> start == b + 1)
  {
    var a := NextAdmitted(rungs, 0);
    var b := NextAdmitted(rungs, a + 1);
    StartLoses(rungs, Call(a, rungs[a].outcome), Call(b, rungs[b].outcome), race);
  }

  /** The trail never invents a call and never misreports one, it contains the call that answered,
      and it leaves out at most one call that was made: the cancelled loser of a settled race. */
  lemma TrailIsFaithful(rungs: seq<Rung>, hedge: bool, race: Race)
    ensures TrailMatches(rungs, Routed(rungs, hedge, race), if hedge && LoserCancelled(rungs, race) then 1 else 0)
  {
    if !hedge {
      PlainTrailMatches(rungs, 0);
    } else {
      var (started, start) := HedgedStart(rungs, race);
      StartTrailMatches(rungs, race);
      if started.routed.result.None? {
        PlainTrailMatches(rungs, start);
        AfterMatches(rungs, started, if LoserCancelled(rungs, race) then 1 else 0, PlainFrom(rungs, start));
      }
    }
  }

  // ---------------------------------------------------------------- the hedge against the plain walk

  /** Every circuit gives the same answer before the race and during the walk. */
  ghost predicate Steady(rungs: seq<Rung>) {
    forall r :: r in rungs ==> r.admitsRace == r.admitsWalk
  }

  /** The hedge is fired, both calls would end the walk, and the second lands first. */
  predicate Overtakes(rungs: seq<Rung>, race: Race) {
    var a := NextAdmitted(rungs, 0);
    var b := NextAdmitted(rungs, a + 1);
    && a < |rungs| && b < |rungs|
    && !race.primaryInTime && race.order == HedgeFirst
    && IsFinal(rungs[a].outcome) && IsFinal(rungs[b].outcome)
  }

  /** Rungs that are passed over leave no dial and no result. */
  lemma {:induction false} PlainPassesOver(rungs: seq<Rung>, i: nat, k: nat)
    requires i <= k <= |rungs| && forall m :: i <= m < k ==> !rungs[m].admitsWalk
    ensures PlainFrom(rungs, i).routed.result == PlainFrom(rungs, k).routed.result
    ensures PlainFrom(rungs, i).dialled == PlainFrom(rungs, k).dialled
    decreases k - i
  {
    if i < k { PlainPassesOver(rungs, i + 1, k); }
  }

  /** A plain walk p that dials this call first, and goes on as rest if the call does not end it. */
  ghost predicate Dials(p: Walk, call: Call, rest: Walk) {
    if IsFinal(call.outcome) then p.routed.result == Some(call) && p.dialled == [call.rung]
    else p.routed.result == rest.routed.result && p.dialled == [call.rung] + rest.dialled
  }

  lemma PlainDials(rungs: seq<Rung>, i: nat, k: nat)
    requires i <= k < |rungs| && rungs[k].admitsWalk && forall m :: i <= m < k ==> !rungs[m].admitsWalk
    ensures Dials(PlainFrom(rungs, i), Call(k, rungs[k].outcome), PlainFrom(rungs, k + 1))
  {
    PlainPassesOver(rungs, i, k);
  }

  /** A walk h that races two calls, and goes on as afterFirst or afterBoth if that settles nothing. */
  ghost predicate Races(h: Walk, first: Call, second: Call, race: Race, afterFirst: Walk, afterBoth: Walk) {
    var both := [first.rung, second.rung];
    if race.primaryInTime then Dials(h, first, afterFirst)
    else if IsFinal(first.outcome) && !(IsFinal(second.outcome) && race.order == HedgeFirst) then
      h.routed.result == Some(first) && h.dialled == both
    else if IsFinal(second.outcome) then h.routed.result == Some(second) && h.dialled == both
    else h.routed.result == afterBoth.routed.result && h.dialled == both + afterBoth.dialled
  }

  lemma HedgedRaces(rungs: seq<Rung>, race: Race, a: nat, b: nat)
    requires a == NextAdmitted(rungs, 0) < |rungs| && b == NextAdmitted(rungs, a + 1) < |rungs|
    ensures Races(Routed(rungs, true, race), Call(a, rungs[a].outcome), Call(b, rungs[b].outcome), race,
                  PlainFrom(rungs, a + 1), PlainFrom(rungs, b + 1))
  {}

  ghost predicate Refines(h: Walk, p: Walk, overtaken: bool) {
    && (h.routed.result.Some? <==> p.routed.result.Some?)
    && |h.dialled| <= |p.dialled| + 1
    && p.dialled <= h.dialled
    && (h.routed.result.None? ==> h.dialled == p.dialled)
    && (h.routed.result != p.routed.result <==> overtaken)
  }

  lemma RaceRefines(h: Walk, p: Walk, first: Call, second: Call, race: Race, afterFirst: Walk, afterBoth: Walk)
    requires first.rung != second.rung
    requires Dials(p, first, afterFirst) && Dials(afterFirst, second, afterBoth)
    requires Races(h, first, second, race, afterFirst, afterBoth)
    ensures var overtaken := !race.primaryInTime && race.order == HedgeFirst;
            Refines(h, p, overtaken && IsFinal(first.outcome) && IsFinal(second.outcome))
  {
    assert [first.rung] + ([second.rung] + afterBoth.dialled) == [first.rung, second.rung] + afterBoth.dialled;
  }

  /** Hedging refines the plain walk: whatever the order of the race, it settles exactly when the
      plain walk does, starts at most one more call, and dials the same rungs when nothing settles.
      It answers from a different rung exactly when the hedge overtakes a primary that would have
      ended the walk too. */
  lemma HedgeRefinesPlainWalk(rungs: seq<Rung>, race: Race)
    requires Steady(rungs)
    ensures Refines(Routed(rungs, true, race), Routed(rungs, false, race), Overtakes(rungs, race))
  {
    var a := NextAdmitted(rungs, 0);
    var b := NextAdmitted(rungs, a + 1);
    if a < |rungs| && b < |rungs| {
      assert forall m :: 0 <= m < |rungs| ==> rungs[m] in rungs;
      PlainDials(rungs, 0, a);
      PlainDials(rungs, a + 1, b);
      HedgedRaces(rungs, race, a, b);
      RaceRefines(Routed(rungs, true, race), PlainFrom(rungs, 0), Call(a, rungs[a].outcome), Call(b, rungs[b].outcome),
                  race, PlainFrom(rungs, a + 1), PlainFrom(rungs, b + 1));
    } else {
      assert Routed(rungs, true, race) == After([], [], PlainFrom(rungs, 0));
    }
  }

  /** So a hedge can turn an answer into a rejection: the primary would have succeeded, but the
      second provider refuses the input first. */
  lemma HedgeCanReject(loserLands: bool, hedgeRecordsFirst: bool)
    ensures var rungs := [Rung(true, true, Ok), Rung(true, true, BadRequest)];
            var race := Race(false, HedgeFirst, loserLands, hedgeRecordsFirst);
            && StatusOf(Routed(rungs, false, race).routed) == Some(200)
            && StatusOf(Routed(rungs, true, race).routed) == Some(400)
  {
    var rungs := [Rung(true, true, Ok), Rung(true, true, BadRequest)];
    assert NextAdmitted(rungs, 0) == 0 && NextAdmitted(rungs, 1) == 1;
  }
}
