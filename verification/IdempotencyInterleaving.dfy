/** Any number of keyed requests at once, interleaving at single Redis commands, any of which may
    be cancelled, or die with its process, between two of them. */
module IdempotencyInterleaving {
  import opened Outcomes
  import opened Idempotency

  /** Where a request is. A Claiming request has taken its key and not yet heard so; a Finishing
      request has its response, or None after an exception, and has yet to write it to Redis; a
      Lost request ended before it got that far. */
  datatype Pc =
    | Looking
    | Claiming
    | Serving
    | Finishing(response: Option<Response>)
    | Answered(reply: Reply)
    | Lost

  datatype Request = Request(key: string, pc: Pc)

  /** The history of a key, in the order Redis saw it. */
  datatype Event =
    | Claimed(key: string, pid: nat)
    | Stored(key: string, pid: nat, response: Response)
    | Released(key: string, pid: nat)
    | Replay(key: string, pid: nat, response: Response)
    | Lapsed(key: string)

  datatype Sys = Sys(entries: map<string, Value>, requests: map<nat, Request>, history: seq<Event>)

  const START := Sys(map[], map[], [])

  /** Cancel is a CancelledError at the await a request is in, Die the end of its process, Lapse
      the TTL of a key running out. */
  datatype Action =
    | Arrive(pid: nat, key: string)
    | Look(pid: nat)
    | Enter(pid: nat)
    | Serve(pid: nat, work: Work, body: string)
    | Finish(pid: nat)
    | Cancel(pid: nat)
    | Die(pid: nat)
    | Lapse(key: string)

  function To(sys: Sys, pid: nat, pc: Pc): map<nat, Request>
    requires pid in sys.requests
  {
    sys.requests[pid := sys.requests[pid].(pc := pc)]
  }

  /** The handler's try block is around _serve alone: there a cancellation is a failure like any
      other, at every other await it ends the request. */
  function WhenCancelled(pc: Pc): Pc {
    match pc
    case Serving => Finishing(None)
    case Answered(_) => pc
    case _ => Lost
  }

  /** An action that is not possible changes nothing. */
  function Next(sys: Sys, a: Action): Sys {
    match a
    // SET NX takes a free key and fails on any other, in one command
    case Arrive(pid, key) =>
      if pid in sys.requests then sys
      else if key in sys.entries then sys.(requests := sys.requests[pid := Request(key, Looking)])
      else
        Sys(sys.entries[key := InFlight], sys.requests[pid := Request(key, Claiming)],
            sys.history + [Claimed(key, pid)])
    // GET after a failed SET NX; a key that vanished in between reads as in flight
    case Look(pid) =>
      if pid !in sys.requests || sys.requests[pid].pc != Looking then sys
      else
        var key := sys.requests[pid].key;
        if key in sys.entries && sys.entries[key].Envelope? then
          var r := sys.entries[key].response;
          sys.(requests := To(sys, pid, Answered(Replayed(r))), history := sys.history + [Replay(key, pid, r)])
        else sys.(requests := To(sys, pid, Answered(Conflict)))
    // the answer to SET NX is in
    case Enter(pid) =>
      if pid !in sys.requests || sys.requests[pid].pc != Claiming then sys
      else sys.(requests := To(sys, pid, Serving))
    // _serve
    case Serve(pid, work, body) =>
      if pid !in sys.requests || sys.requests[pid].pc != Serving then sys
      else sys.(requests := To(sys, pid, Finishing(Served(work, body))))
    // SET of the envelope, or DEL of the claim
    case Finish(pid) =>
      if pid !in sys.requests || !sys.requests[pid].pc.Finishing? then sys
      else Finished(sys, pid)
    case Cancel(pid) =>
      if pid !in sys.requests then sys
      else sys.(requests := To(sys, pid, WhenCancelled(sys.requests[pid].pc)))
    case Die(pid) =>
      if pid !in sys.requests || sys.requests[pid].pc.Answered? then sys
      else sys.(requests := To(sys, pid, Lost))
    case Lapse(key) =>
      if key !in sys.entries then sys
      else sys.(entries := sys.entries - {key}, history := sys.history + [Lapsed(key)])
  }

  predicate Succeeded(response: Option<Response>) { response.Some? && Storable(response.value) }

  function Finished(sys: Sys, pid: nat): Sys
    requires pid in sys.requests && sys.requests[pid].pc.Finishing?
  {
    var key, r := sys.requests[pid].key, sys.requests[pid].pc.response;
    var requests := To(sys, pid, Answered(if r.Some? then Fresh(r.value) else Failed));
    if Succeeded(r) then Sys(sys.entries[key := Envelope(r.value)], requests, sys.history + [Stored(key, pid, r.value)])
    else Sys(sys.entries - {key}, requests, sys.history + [Released(key, pid)])
  }

  /** The request has claimed its key and not yet given it up. */
  predicate Owns(r: Request) { r.pc.Claiming? || r.pc.Serving? || r.pc.Finishing? }

  ghost predicate Owned(sys: Sys, key: string) {
    exists p :: p in sys.requests && Owns(sys.requests[p]) && sys.requests[p].key == key
  }

  /** A run from an empty Redis in which every claim outlives the request that holds it. */
  ghost predicate IsInterleaving(ss: seq<Sys>, acts: seq<Action>) {
    && |ss| == |acts| + 1
    && ss[0] == START
    && (forall i :: 0 <= i < |acts| ==> ss[i + 1] == Next(ss[i], acts[i]))
    && (forall i :: 0 <= i < |acts| && acts[i].Lapse? ==> !Owned(ss[i], acts[i].key))
  }

  // ---------------------------------------------------------------- what a history says

  function HoldsAfter(before: Option<Value>, e: Event, key: string): Option<Value> {
    if e.key != key then before
    else
      match e
      case Claimed(_, _) => Some(InFlight)
      case Stored(_, _, r) => Some(Envelope(r))
      case Released(_, _) => None
      case Replay(_, _, _) => before
      case Lapsed(_) => None
  }

  /** What the first n events of a history leave under a key; None is free. */
  function Holding(h: seq<Event>, n: nat, key: string): Option<Value>
    requires n <= |h|
  {
    if n == 0 then None else HoldsAfter(Holding(h, n - 1, key), h[n - 1], key)
  }

  function ClaimsAfter(before: Option<nat>, e: Event, key: string): Option<nat> {
    if e.key != key || e.Replay? then before else if e.Claimed? then Some(e.pid) else None
  }

  /** Whose claim on a key is in force after the first n events. */
  function Claimant(h: seq<Event>, n: nat, key: string): Option<nat>
    requires n <= |h|
  {
    if n == 0 then None else ClaimsAfter(Claimant(h, n - 1, key), h[n - 1], key)
  }

  function ClaimantIn(sys: Sys, key: string): Option<nat> {
    Claimant(sys.history, |sys.history|, key)
  }

  lemma {:induction false} ClaimIsInFlight(h: seq<Event>, n: nat, key: string)
    requires n <= |h|
    ensures Claimant(h, n, key).Some? <==> Holding(h, n, key) == Some(InFlight)
  {
    if n > 0 { ClaimIsInFlight(h, n - 1, key); }
  }

  lemma {:induction false} SamePrefix(h: seq<Event>, e: Event, n: nat, key: string)
    requires n <= |h|
    ensures Holding(h + [e], n, key) == Holding(h, n, key)
    ensures Claimant(h + [e], n, key) == Claimant(h, n, key)
  {
    if n > 0 { SamePrefix(h, e, n - 1, key); }
  }

  lemma Appended(h: seq<Event>, e: Event, key: string)
    ensures Holding(h + [e], |h| + 1, key) == HoldsAfter(Holding(h, |h|, key), e, key)
    ensures Claimant(h + [e], |h| + 1, key) == ClaimsAfter(Claimant(h, |h|, key), e, key)
  {
    SamePrefix(h, e, |h|, key);
  }

  /** The state an event needs its key to be in. */
  predicate Allowed(before: Option<Value>, e: Event) {
    match e
    case Claimed(_, _) => before == None
    case Stored(_, _, _) => before == Some(InFlight)
    case Released(_, _) => before == Some(InFlight)
    case Replay(_, _, r) => before == Some(Envelope(r))
    case Lapsed(_) => before.Some?
  }

  /** Each event happened to a key that was in the state the event needs. */
  ghost predicate Lawful(h: seq<Event>) {
    forall n :: 0 <= n < |h| ==> LawfulAt(h, n)
  }

  ghost predicate LawfulAt(h: seq<Event>, n: nat)
    requires n < |h|
  {
    Allowed(Holding(h, n, h[n].key), h[n])
  }

  lemma LawfulExtends(h: seq<Event>, e: Event)
    requires Lawful(h) && Allowed(Holding(h, |h|, e.key), e)
    ensures Lawful(h + [e])
  {
    var g := h + [e];
    forall n | 0 <= n < |g| ensures LawfulAt(g, n) {
      SamePrefix(h, e, n, g[n].key);
      if n < |h| { assert g[n] == h[n] && LawfulAt(h, n); }
    }
  }

  // ---------------------------------------------------------------- the invariant

  function Entry(sys: Sys, key: string): Option<Value> {
    if key in sys.entries then Some(sys.entries[key]) else None
  }

  /** Redis and the history agree. */
  ghost predicate InStep(sys: Sys) {
    && Lawful(sys.history)
    && forall key :: Holding(sys.history, |sys.history|, key) == Entry(sys, key)
  }

  /** The claims in force are those of the requests at work and of those that were lost. */
  ghost predicate Accounted(sys: Sys) {
    && (forall p :: p in sys.requests && Owns(sys.requests[p]) ==> ClaimantIn(sys, sys.requests[p].key) == Some(p))
    && (forall key :: ClaimantIn(sys, key).Some? ==> Answerable(sys, ClaimantIn(sys, key).value, key))
  }

  ghost predicate Answerable(sys: Sys, p: nat, key: string) {
    p in sys.requests && sys.requests[p].key == key && (Owns(sys.requests[p]) || sys.requests[p].pc == Lost)
  }

  ghost predicate Inv(sys: Sys) { InStep(sys) && Accounted(sys) }

  /** A step that logs one event which its key allowed, and does to the key what the event says. */
  lemma StaysInStep(s: Sys, t: Sys, e: Event)
    requires InStep(s) && t.history == s.history + [e]
    requires Allowed(Entry(s, e.key), e)
    requires forall key :: Entry(t, key) == HoldsAfter(Entry(s, key), e, key)
    ensures InStep(t)
    ensures forall key :: ClaimantIn(t, key) == ClaimsAfter(ClaimantIn(s, key), e, key)
  {
    LawfulExtends(s.history, e);
    forall key { Appended(s.history, e, key); }
  }

  lemma ClaimantReadsInFlight(sys: Sys, key: string)
    requires InStep(sys)
    ensures ClaimantIn(sys, key).Some? <==> Entry(sys, key) == Some(InFlight)
  {
    ClaimIsInFlight(sys.history, |sys.history|, key);
  }

  /** A claim that was answered for still is, and a new one is answered for from the start. */
  lemma StaysAnswerable(s: Sys, t: Sys)
    requires Accounted(s)
    requires forall key, p ::
               ClaimantIn(t, key) == Some(p) && (ClaimantIn(s, key) == Some(p) ==> Answerable(s, p, key)) ==>
                 Answerable(t, p, key)
    ensures forall key :: ClaimantIn(t, key).Some? ==> Answerable(t, ClaimantIn(t, key).value, key)
  {
    forall key | ClaimantIn(t, key).Some? ensures Answerable(t, ClaimantIn(t, key).value, key) {
      assert ClaimantIn(s, key).Some? ==> Answerable(s, ClaimantIn(s, key).value, key);
    }
  }

  lemma ArriveKeeps(s: Sys, pid: nat, key: string)
    requires Inv(s) && pid !in s.requests
    ensures Inv(Next(s, Arrive(pid, key)))
  {
    var t := Next(s, Arrive(pid, key));
    ClaimantReadsInFlight(s, key);
    if key !in s.entries {
      StaysInStep(s, t, Claimed(key, pid));
    } else {
      assert forall k :: ClaimantIn(t, k) == ClaimantIn(s, k) && Entry(t, k) == Entry(s, k);
    }
    StaysAnswerable(s, t);
  }

  lemma LookKeeps(s: Sys, pid: nat)
    requires Inv(s) && pid in s.requests && s.requests[pid].pc == Looking
    ensures Inv(Next(s, Look(pid)))
  {
    var t := Next(s, Look(pid));
    var key := s.requests[pid].key;
    if key in s.entries && s.entries[key].Envelope? {
      StaysInStep(s, t, Replay(key, pid, s.entries[key].response));
    } else {
      assert forall k :: ClaimantIn(t, k) == ClaimantIn(s, k) && Entry(t, k) == Entry(s, k);
    }
    StaysAnswerable(s, t);
  }

  /** A step that moves one request without giving up a claim or taking one. */
  lemma MoveKeeps(s: Sys, t: Sys, pid: nat, pc: Pc)
    requires Inv(s) && pid in s.requests && t == s.(requests := To(s, pid, pc))
    requires Owns(Request("", pc)) ==> Owns(s.requests[pid])
    requires Owns(s.requests[pid]) || s.requests[pid].pc == Lost ==> Owns(Request("", pc)) || pc == Lost
    ensures Inv(t)
  {
    forall key ensures ClaimantIn(t, key) == ClaimantIn(s, key) && Entry(t, key) == Entry(s, key) {}
  }

  lemma FinishKeeps(s: Sys, pid: nat)
    requires Inv(s) && pid in s.requests && s.requests[pid].pc.Finishing?
    ensures Inv(Next(s, Finish(pid)))
  {
    var t := Next(s, Finish(pid));
    var key, r := s.requests[pid].key, s.requests[pid].pc.response;
    assert Owns(s.requests[pid]);
    ClaimantReadsInFlight(s, key);
    StaysInStep(s, t, if Succeeded(r) then Stored(key, pid, r.value) else Released(key, pid));
  }

  lemma LapseKeeps(s: Sys, key: string)
    requires Inv(s) && key in s.entries && !Owned(s, key)
    ensures Inv(Next(s, Lapse(key)))
  {
    StaysInStep(s, Next(s, Lapse(key)), Lapsed(key));
  }

  lemma NextKeeps(s: Sys, a: Action)
    requires Inv(s) && (a.Lapse? ==> !Owned(s, a.key))
    ensures Inv(Next(s, a))
  {
    match a
    case Arrive(pid, key) => if pid !in s.requests { ArriveKeeps(s, pid, key); }
    case Look(pid) => if pid in s.requests && s.requests[pid].pc == Looking { LookKeeps(s, pid); }
    case Finish(pid) => if pid in s.requests && s.requests[pid].pc.Finishing? { FinishKeeps(s, pid); }
    case Lapse(key) => if key in s.entries { LapseKeeps(s, key); }
    case _ =>
      var t := Next(s, a);
      if a.pid in s.requests && t != s { MoveKeeps(s, t, a.pid, t.requests[a.pid].pc); }
  }

  lemma {:induction false} InvAlways(ss: seq<Sys>, acts: seq<Action>, i: nat)
    requires IsInterleaving(ss, acts) && i < |ss|
    ensures Inv(ss[i])
  {
    if i > 0 {
      InvAlways(ss, acts, i - 1);
      NextKeeps(ss[i - 1], acts[i - 1]);
    }
  }

  // ---------------------------------------------------------------- exclusion

  /** Mutual exclusion, whatever is cancelled and whatever dies: at every step at most one request
      per key is at work, and it is at work only while the key reads in flight, so never over a
      stored envelope. */
  lemma OneRequestPerKey(ss: seq<Sys>, acts: seq<Action>, i: nat, p: nat, q: nat)
    requires IsInterleaving(ss, acts) && i < |ss|
    ensures var s := ss[i];
            && (p in s.requests && Owns(s.requests[p]) ==> Entry(s, s.requests[p].key) == Some(InFlight))
            && (p in s.requests && q in s.requests && Owns(s.requests[p]) && Owns(s.requests[q]) && p != q ==>
                  s.requests[p].key != s.requests[q].key)
  {
    InvAlways(ss, acts, i);
    if p in ss[i].requests { ClaimantReadsInFlight(ss[i], ss[i].requests[p].key); }
  }

  /** The request holds a claim and this ends it without giving the claim up: its process dies, or
      it is cancelled at any await but those inside _serve. */
  ghost predicate LosesClaim(s: Sys, a: Action, p: nat) {
    && p in s.requests && Owns(s.requests[p])
    && (a == Die(p) || (a == Cancel(p) && s.requests[p].pc != Serving))
  }

  lemma {:induction false} LostHow(ss: seq<Sys>, acts: seq<Action>, i: nat, key: string) returns (m: nat)
    requires IsInterleaving(ss, acts) && i < |ss| && ClaimantIn(ss[i], key).Some?
    requires var p := ClaimantIn(ss[i], key).value; p in ss[i].requests && ss[i].requests[p].pc == Lost
    ensures m < i && LosesClaim(ss[m], acts[m], ClaimantIn(ss[i], key).value)
  {
    var p := ClaimantIn(ss[i], key).value;
    var s, a := ss[i - 1], acts[i - 1];
    InvAlways(ss, acts, i - 1);
    ClaimantStep(s, a, key);
    assert ClaimantIn(s, key) == Some(p);
    if s.requests[p].pc == Lost {
      m := LostHow(ss, acts, i - 1, key);
    } else {
      m := i - 1;
    }
  }

  /** A claim comes into force only with its request. */
  lemma ClaimantStep(s: Sys, a: Action, key: string)
    requires InStep(s)
    ensures var t := Next(s, a);
            ClaimantIn(t, key).Some? && ClaimantIn(t, key) != ClaimantIn(s, key) ==>
              a == Arrive(ClaimantIn(t, key).value, key) && t.requests[ClaimantIn(t, key).value].pc == Claiming
  {
    var t := Next(s, a);
    if t.history != s.history {
      var e := t.history[|s.history|];
      assert t.history == s.history + [e];
      Appended(s.history, e, key);
    }
  }

  lemma {:induction false} LostForGood(ss: seq<Sys>, acts: seq<Action>, i: nat, k: nat, p: nat)
    requires IsInterleaving(ss, acts) && i <= k < |ss| && p in ss[i].requests && ss[i].requests[p].pc == Lost
    ensures p in ss[k].requests && ss[k].requests[p] == ss[i].requests[p]
  {
    if i < k {
      LostForGood(ss, acts, i, k - 1, p);
      assert ss[k] == Next(ss[k - 1], acts[k - 1]);
    }
  }

  /** Exactly when a claim is orphaned. A key reads in flight with no request behind it if and only
      if the request whose claim is in force was cancelled outside _serve, or died, holding it. */
  lemma OrphanedIff(ss: seq<Sys>, acts: seq<Action>, i: nat, key: string)
    requires IsInterleaving(ss, acts) && i < |ss|
    ensures Entry(ss[i], key) == Some(InFlight) && !Owned(ss[i], key)
       <==> && ClaimantIn(ss[i], key).Some?
            && exists m :: 0 <= m < i && LosesClaim(ss[m], acts[m], ClaimantIn(ss[i], key).value)
  {
    var s := ss[i];
    InvAlways(ss, acts, i);
    ClaimantReadsInFlight(s, key);
    if ClaimantIn(s, key).Some? {
      var p := ClaimantIn(s, key).value;
      assert Answerable(s, p, key);
      if s.requests[p].pc == Lost {
        var m := LostHow(ss, acts, i, key);
      } else {
        assert Owned(s, key);
        forall m | 0 <= m < i ensures !LosesClaim(ss[m], acts[m], p) {
          if LosesClaim(ss[m], acts[m], p) {
            assert ss[m + 1] == Next(ss[m], acts[m]);
            LostForGood(ss, acts, m + 1, i, p);
            assert false;
          }
        }
      }
    }
  }

  /** It happens at once: a request cancelled before it has heard that its claim succeeded. */
  lemma CancelledClaimIsOrphaned(p: nat, key: string) returns (ss: seq<Sys>, acts: seq<Action>)
    ensures IsInterleaving(ss, acts)
    ensures Entry(ss[|acts|], key) == Some(InFlight) && !Owned(ss[|acts|], key)
  {
    acts := [Arrive(p, key), Cancel(p)];
    var claimed := Next(START, Arrive(p, key));
    ss := [START, claimed, Next(claimed, Cancel(p))];
  }

  /** An orphaned claim blocks its key until its TTL lapses, and no longer: whoever comes meanwhile
      is told of a conflict. */
  lemma {:induction false} OrphanBlocksUntilItLapses(ss: seq<Sys>, acts: seq<Action>, i: nat, k: nat, key: string)
    requires IsInterleaving(ss, acts) && i <= k < |ss|
    requires Entry(ss[i], key) == Some(InFlight) && !Owned(ss[i], key)
    requires forall m :: i <= m < k ==> acts[m] != Lapse(key)
    ensures Entry(ss[k], key) == Some(InFlight) && !Owned(ss[k], key)
  {
    if i < k {
      OrphanBlocksUntilItLapses(ss, acts, i, k - 1, key);
      OrphanStep(ss[k - 1], acts[k - 1], key);
    }
  }

  lemma OrphanStep(s: Sys, a: Action, key: string)
    requires Entry(s, key) == Some(InFlight) && !Owned(s, key) && a != Lapse(key)
    ensures Entry(Next(s, a), key) == Some(InFlight) && !Owned(Next(s, a), key)
  {
    var t := Next(s, a);
    forall p | p in t.requests && Owns(t.requests[p]) ensures t.requests[p].key != key {
      if p in s.requests { assert Owns(s.requests[p]) ==> s.requests[p].key != key; }
    }
  }

  // ---------------------------------------------------------------- replay

  lemma EnvelopeStays(r: Response, e: Event, key: string)
    requires e.key == key ==> Allowed(Some(Envelope(r)), e)
    requires e != Lapsed(key)
    ensures HoldsAfter(Some(Envelope(r)), e, key) == Some(Envelope(r))
    ensures e.key == key ==> e.Replay? && e.response == r
  {}

  /** Once stored, a response is all a key answers until the envelope's TTL lapses. */
  lemma {:induction false} StoredUntilLapsed(h: seq<Event>, m: nat, n: nat)
    requires Lawful(h) && m < n <= |h| && h[m].Stored?
    requires forall l :: m < l < n ==> h[l] != Lapsed(h[m].key)
    ensures Holding(h, n, h[m].key) == Some(Envelope(h[m].response))
    ensures forall l :: m < l < n && h[l].key == h[m].key ==> h[l].Replay? && h[l].response == h[m].response
  {
    if m + 1 < n {
      StoredUntilLapsed(h, m, n - 1);
      assert LawfulAt(h, n - 1);
      EnvelopeStays(h[m].response, h[n - 1], h[m].key);
    }
  }

  lemma {:induction false} EnvelopeWasStored(h: seq<Event>, n: nat, key: string) returns (m: nat)
    requires n <= |h| && Holding(h, n, key).Some? && Holding(h, n, key).value.Envelope?
    ensures m < n && h[m].Stored? && h[m].key == key && Holding(h, n, key) == Some(Envelope(h[m].response))
    ensures forall l :: m < l < n ==> h[l] != Lapsed(key)
  {
    if h[n - 1].Stored? && h[n - 1].key == key {
      m := n - 1;
    } else {
      m := EnvelopeWasStored(h, n - 1, key);
    }
  }

  // Requests are answered once, and what they are answered is what the history says.

  /** An event that answers a request answers it with what the event is about. */
  ghost predicate AnswerLogged(sys: Sys, e: Event) {
    e in sys.history && (e.Replay? || e.Stored?) ==>
      && e.pid in sys.requests
      && sys.requests[e.pid] == Request(e.key, Answered(if e.Replay? then Replayed(e.response) else Fresh(e.response)))
      && (e.Stored? ==> Storable(e.response))
  }

  /** A request answered by a replay, or with a response worth storing, has its event. */
  ghost predicate LoggedAnswer(sys: Sys, p: nat) {
    p in sys.requests ==>
      match sys.requests[p].pc
      case Answered(Replayed(r)) => Replay(sys.requests[p].key, p, r) in sys.history
      case Answered(Fresh(r)) => Storable(r) ==> Stored(sys.requests[p].key, p, r) in sys.history
      case _ => true
  }

  lemma LogStep(s: Sys, a: Action, e: Event)
    requires AnswerLogged(s, e)
    ensures AnswerLogged(Next(s, a), e)
  {
    var t := Next(s, a);
    if t.history != s.history {
      var last := t.history[|s.history|];
      assert t.history == s.history + [last];
      assert e in t.history <==> e in s.history || e == last;
    }
  }

  lemma AnswerStep(s: Sys, a: Action, p: nat)
    requires LoggedAnswer(s, p)
    ensures LoggedAnswer(Next(s, a), p)
  {
    var t := Next(s, a);
    if t.history != s.history {
      var last := t.history[|s.history|];
      assert t.history == s.history + [last];
      assert last in t.history && forall e :: e in s.history ==> e in t.history;
    }
  }

  lemma {:induction false} AnswersLogged(ss: seq<Sys>, acts: seq<Action>, i: nat, p: nat, e: Event)
    requires IsInterleaving(ss, acts) && i < |ss|
    ensures LoggedAnswer(ss[i], p) && AnswerLogged(ss[i], e)
  {
    if i > 0 {
      AnswersLogged(ss, acts, i - 1, p, e);
      AnswerStep(ss[i - 1], acts[i - 1], p);
      LogStep(ss[i - 1], acts[i - 1], e);
    }
  }

  /** In every interleaving a request is answered with a replay of r exactly if its key's history
      holds that replay, and with a response of its own worth storing exactly if the history holds
      that it was stored. */
  lemma RepliesMatchHistory(ss: seq<Sys>, acts: seq<Action>, i: nat, p: nat, r: Response)
    requires IsInterleaving(ss, acts) && i < |ss| && p in ss[i].requests
    ensures var key, pc := ss[i].requests[p].key, ss[i].requests[p].pc;
            && (pc == Answered(Replayed(r)) <==> Replay(key, p, r) in ss[i].history)
            && (pc == Answered(Fresh(r)) && Storable(r) <==> Stored(key, p, r) in ss[i].history)
  {
    var key := ss[i].requests[p].key;
    AnswersLogged(ss, acts, i, p, Replay(key, p, r));
    AnswersLogged(ss, acts, i, p, Stored(key, p, r));
  }

  /** Every replay hands back exactly the response its one successful owner was answered with, status
      and body: there is such an owner, which stored it, and between the two nobody else stored under
      the key and its envelope did not lapse. */
  lemma ReplaysAreFaithful(ss: seq<Sys>, acts: seq<Action>, i: nat, p: nat, r: Response)
    returns (owner: nat, m: nat, n: nat)
    requires IsInterleaving(ss, acts) && i < |ss|
    requires p in ss[i].requests && ss[i].requests[p].pc == Answered(Replayed(r))
    ensures var h, key := ss[i].history, ss[i].requests[p].key;
            && owner in ss[i].requests && ss[i].requests[owner] == Request(key, Answered(Fresh(r)))
            && m < n < |h| && h[m] == Stored(key, owner, r) && h[n] == Replay(key, p, r)
            && (forall l :: m < l < n ==> h[l] != Lapsed(key))
            && (forall l :: m < l < n && h[l].Stored? ==> h[l].key != key)
  {
    var h, key := ss[i].history, ss[i].requests[p].key;
    RepliesMatchHistory(ss, acts, i, p, r);
    n :| 0 <= n < |h| && h[n] == Replay(key, p, r);
    m := ReplayFollowsStore(ss, acts, i, n);
    owner := h[m].pid;
    AnswersLogged(ss, acts, i, owner, h[m]);
  }

  lemma ReplayFollowsStore(ss: seq<Sys>, acts: seq<Action>, i: nat, n: nat) returns (m: nat)
    requires IsInterleaving(ss, acts) && i < |ss| && n < |ss[i].history| && ss[i].history[n].Replay?
    ensures var h := ss[i].history;
            && m < n && h[m].Stored? && h[m].key == h[n].key && h[m].response == h[n].response
            && (forall l :: m < l < n ==> h[l] != Lapsed(h[n].key))
            && (forall l :: m < l < n && h[l].Stored? ==> h[l].key != h[n].key)
  {
    InvAlways(ss, acts, i);
    var h := ss[i].history;
    assert LawfulAt(h, n);
    m := EnvelopeWasStored(h, n, h[n].key);
    StoredUntilLapsed(h, m, n);
  }

  /** This action gave request p what it is, or will be, answered with: serving came to a response,
      or failed, or its key was looked at and held no envelope. */
  ghost predicate Earns(s: Sys, a: Action, p: nat, pc: Pc) {
    && p in s.requests
    && match pc
       case Finishing(response) => ServesTo(s, a, p, response)
       case Answered(Fresh(r)) => ServesTo(s, a, p, Some(r))
       case Answered(Failed) => ServesTo(s, a, p, None)
       case Answered(Replayed(r)) => a == Look(p) && Entry(s, s.requests[p].key) == Some(Envelope(r))
       case Answered(Conflict) =>
         a == Look(p) && (Entry(s, s.requests[p].key).None? || Entry(s, s.requests[p].key).value.InFlight?)
       case _ => true
  }

  ghost predicate ServesTo(s: Sys, a: Action, p: nat, response: Option<Response>)
    requires p in s.requests
  {
    && s.requests[p].pc == Serving
    && ((a.Serve? && a.pid == p && Served(a.work, a.body) == response) || (a == Cancel(p) && response == None))
  }

  /** A finished request is answered with its response. */
  predicate Answers(before: Pc, after: Pc) {
    before.Finishing? && after == Answered(if before.response.Some? then Fresh(before.response.value) else Failed)
  }

  lemma EarnsStep(s: Sys, a: Action, p: nat)
    requires p in Next(s, a).requests
    requires Next(s, a).requests[p].pc.Finishing? || Next(s, a).requests[p].pc.Answered?
    ensures var pc := Next(s, a).requests[p].pc;
            p in s.requests && (s.requests[p].pc == pc || Answers(s.requests[p].pc, pc) || Earns(s, a, p, pc))
  {}

  /** Where answers come from: a request is answered with what serving it came to, with a failure only
      if serving failed, with a replay only of the envelope it found, and with a conflict only if it
      found none. */
  lemma {:induction false} AnswersAreEarned(ss: seq<Sys>, acts: seq<Action>, i: nat, p: nat) returns (m: nat)
    requires IsInterleaving(ss, acts) && i < |ss| && p in ss[i].requests
    requires ss[i].requests[p].pc.Finishing? || ss[i].requests[p].pc.Answered?
    ensures m < i && Earns(ss[m], acts[m], p, ss[i].requests[p].pc)
  {
    var s, a, pc := ss[i - 1], acts[i - 1], ss[i].requests[p].pc;
    EarnsStep(s, a, p);
    if s.requests[p].pc == pc || Answers(s.requests[p].pc, pc) {
      m := AnswersAreEarned(ss, acts, i - 1, p);
    } else {
      m := i - 1;
    }
  }

  /** While envelopes last, one key is stored once: two owners never both succeed. */
  lemma OneSuccessfulOwner(ss: seq<Sys>, acts: seq<Action>, i: nat, m: nat, n: nat)
    requires IsInterleaving(ss, acts) && i < |ss| && m < n < |ss[i].history|
    requires ss[i].history[m].Stored? && ss[i].history[n].Stored? && ss[i].history[m].key == ss[i].history[n].key
    ensures exists l :: m < l < n && ss[i].history[l] == Lapsed(ss[i].history[m].key)
  {
    InvAlways(ss, acts, i);
    var h := ss[i].history;
    assert LawfulAt(h, n);
    if forall l :: m < l < n ==> h[l] != Lapsed(h[m].key) {
      StoredUntilLapsed(h, m, n);
      assert false;
    }
  }

  // ---------------------------------------------------------------- failure

  /** The request fails inside _serve: an exception, a cancellation, or a status not worth storing. */
  ghost predicate FailsServing(s: Sys, a: Action, p: nat) {
    && p in s.requests && s.requests[p].pc == Serving
    && (a == Cancel(p) || (a.Serve? && a.pid == p && !Succeeded(Served(a.work, a.body))))
  }

  /** Somebody claimed the key after the first n events. */
  ghost predicate ClaimedSince(h: seq<Event>, n: nat, key: string) {
    exists l :: n <= l < |h| && h[l].Claimed? && h[l].key == key
  }

  /** The request gave its key up at action m, and the key has been free since or was claimed anew. */
  ghost predicate FreedAt(ss: seq<Sys>, acts: seq<Action>, m: nat, k: nat, p: nat, key: string) {
    && m < k < |ss| && k <= |acts|
    && acts[m] == Finish(p) && key !in ss[m + 1].entries
    && (key in ss[k].entries ==> ClaimedSince(ss[k].history, |ss[m + 1].history|, key))
  }

  /** Where a request that failed at action i has got to by k: it still has to release its key,
      which nobody else can have meanwhile; or it was lost on the way; or it released the key. */
  ghost predicate FailureTracked(ss: seq<Sys>, acts: seq<Action>, i: nat, k: nat, p: nat, key: string)
    requires i < k < |ss| && k <= |acts|
  {
    && p in ss[k].requests && ss[k].requests[p].key == key
    && match ss[k].requests[p].pc
       case Finishing(r) => !Succeeded(r) && ClaimantIn(ss[k], key) == Some(p)
       case Lost => WasLost(ss, acts, i, k, p)
       case Answered(_) => WasFreed(ss, acts, i, k, p, key)
       case _ => false
  }

  ghost predicate WasLost(ss: seq<Sys>, acts: seq<Action>, i: nat, k: nat, p: nat)
    requires k < |ss| && k <= |acts|
  {
    exists m :: i < m < k && LosesClaim(ss[m], acts[m], p)
  }

  ghost predicate WasFreed(ss: seq<Sys>, acts: seq<Action>, i: nat, k: nat, p: nat, key: string) {
    exists m :: i < m < k && FreedAt(ss, acts, m, k, p, key)
  }

  lemma NextLogs(s: Sys, a: Action, key: string)
    ensures var t := Next(s, a);
            && s.history <= t.history
            && (key in t.entries && key !in s.entries ==> ClaimedSince(t.history, |s.history|, key) || a.Finish?)
  {
    var t := Next(s, a);
    if key in t.entries && key !in s.entries && !a.Finish? {
      assert t.history[|s.history|] == Claimed(key, a.pid);
    }
  }

  /** No failure inside _serve leaves its key blocked. In every interleaving, a request that fails
      there goes on to release its key, and from then on the key is free or has been claimed anew;
      only a second blow, before the release, can prevent that. */
  lemma {:induction false} FailureFreesTheKey(ss: seq<Sys>, acts: seq<Action>, i: nat, k: nat, p: nat)
    requires IsInterleaving(ss, acts) && i < k < |ss| && FailsServing(ss[i], acts[i], p)
    ensures FailureTracked(ss, acts, i, k, p, ss[i].requests[p].key)
  {
    if i + 1 == k {
      FailureBegins(ss, acts, i, p);
    } else {
      FailureFreesTheKey(ss, acts, i, k - 1, p);
      FailureContinues(ss, acts, i, k, p, ss[i].requests[p].key);
    }
  }

  lemma FailureContinues(ss: seq<Sys>, acts: seq<Action>, i: nat, k: nat, p: nat, key: string)
    requires IsInterleaving(ss, acts) && i + 1 < k < |ss| && FailureTracked(ss, acts, i, k - 1, p, key)
    ensures FailureTracked(ss, acts, i, k, p, key)
  {
    if ss[k - 1].requests[p].pc.Finishing? {
      InvAlways(ss, acts, k);
      FinishingStep(ss, acts, i, k, p, key);
    } else if ss[k - 1].requests[p].pc.Lost? {
      LostStep(ss, acts, i, k, p, key);
    } else {
      InvAlways(ss, acts, k - 1);
      AnsweredStep(ss, acts, i, k, p, key);
    }
  }

  lemma FailureBegins(ss: seq<Sys>, acts: seq<Action>, i: nat, p: nat)
    requires IsInterleaving(ss, acts) && i < |acts| && FailsServing(ss[i], acts[i], p)
    ensures FailureTracked(ss, acts, i, i + 1, p, ss[i].requests[p].key)
  {
    InvAlways(ss, acts, i + 1);
    assert ss[i + 1] == Next(ss[i], acts[i]);
    assert Owns(ss[i + 1].requests[p]);
  }

  lemma FinishingStep(ss: seq<Sys>, acts: seq<Action>, i: nat, k: nat, p: nat, key: string)
    requires IsInterleaving(ss, acts) && i + 1 < k < |ss| && Accounted(ss[k])
    requires FailureTracked(ss, acts, i, k - 1, p, key) && ss[k - 1].requests[p].pc.Finishing?
    ensures FailureTracked(ss, acts, i, k, p, key)
  {
    var s, a, t := ss[k - 1], acts[k - 1], ss[k];
    assert t == Next(s, a);
    if a == Finish(p) {
      assert FreedAt(ss, acts, k - 1, k, p, key);
    } else if a == Cancel(p) || a == Die(p) {
      assert LosesClaim(s, a, p);
    } else {
      assert t.requests[p] == s.requests[p];
    }
  }

  lemma LostStep(ss: seq<Sys>, acts: seq<Action>, i: nat, k: nat, p: nat, key: string)
    requires IsInterleaving(ss, acts) && i + 1 < k < |ss|
    requires FailureTracked(ss, acts, i, k - 1, p, key) && ss[k - 1].requests[p].pc.Lost?
    ensures FailureTracked(ss, acts, i, k, p, key)
  {
    LostForGood(ss, acts, k - 1, k, p);
    var m :| i < m < k - 1 && LosesClaim(ss[m], acts[m], p);
    assert WasLost(ss, acts, i, k, p);
  }

  lemma AnsweredForGood(s: Sys, a: Action, p: nat)
    requires p in s.requests && s.requests[p].pc.Answered?
    ensures p in Next(s, a).requests && Next(s, a).requests[p] == s.requests[p]
  {}

  lemma AnsweredStep(ss: seq<Sys>, acts: seq<Action>, i: nat, k: nat, p: nat, key: string)
    requires IsInterleaving(ss, acts) && i + 1 < k < |ss| && Inv(ss[k - 1])
    requires FailureTracked(ss, acts, i, k - 1, p, key) && ss[k - 1].requests[p].pc.Answered?
    ensures FailureTracked(ss, acts, i, k, p, key)
  {
    AnsweredForGood(ss[k - 1], acts[k - 1], p);
    var m :| i < m < k - 1 && FreedAt(ss, acts, m, k - 1, p, key);
    HistoryGrows(ss, acts, m + 1, k - 1);
    FreedStays(ss, acts, m, k, p, key);
  }

  lemma {:induction false} HistoryGrows(ss: seq<Sys>, acts: seq<Action>, i: nat, k: nat)
    requires IsInterleaving(ss, acts) && i <= k < |ss|
    ensures ss[i].history <= ss[k].history
  {
    if i < k {
      HistoryGrows(ss, acts, i, k - 1);
      NextLogs(ss[k - 1], acts[k - 1], "");
    }
  }

  lemma FreedStays(ss: seq<Sys>, acts: seq<Action>, m: nat, k: nat, p: nat, key: string)
    requires IsInterleaving(ss, acts) && m + 1 < k < |ss| && FreedAt(ss, acts, m, k - 1, p, key)
    requires Inv(ss[k - 1]) && |ss[m + 1].history| <= |ss[k - 1].history|
    ensures FreedAt(ss, acts, m, k, p, key)
  {
    var s, a, t := ss[k - 1], acts[k - 1], ss[k];
    NextLogs(s, a, key);
    if key in t.entries {
      if key in s.entries {
        var l :| |ss[m + 1].history| <= l < |s.history| && s.history[l].Claimed? && s.history[l].key == key;
        assert t.history[l] == s.history[l];
      } else if a.Finish? && a.pid in s.requests {
        ClaimantReadsInFlight(s, s.requests[a.pid].key);
      }
    }
  }

  // ---------------------------------------------------------------- the lifetime assumption

  /** Why claims must outlive their requests. Whenever one lapses under its request, at whatever
      stage, the next request to arrive owns the same key at the same time; and however the first
      one ends, it takes the claim away from the second, freeing the key or storing over it. */
  lemma LapsedClaimBreaksExclusion(sys: Sys, p: nat, q: nat, work: Work, body: string)
    requires p in sys.requests && Owns(sys.requests[p]) && q !in sys.requests
    requires Entry(sys, sys.requests[p].key) == Some(InFlight)
    ensures var key := sys.requests[p].key;
            var both := Next(Next(sys, Lapse(key)), Arrive(q, key));
            var after := Next(Next(Next(both, Enter(p)), Serve(p, work, body)), Finish(p));
            && both.requests[p] == sys.requests[p] && both.requests[q] == Request(key, Claiming)
            && after.requests[p].pc.Answered? && after.requests[q] == Request(key, Claiming)
            && Entry(after, key) != Some(InFlight)
  {}
}
