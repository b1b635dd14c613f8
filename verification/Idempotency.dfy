/** The idempotency guard (gateway/idempotency.py) and the handler that drives it
    (chat_completions, _replay and _serve in gateway/main.py). */
module Idempotency {
  import opened Outcomes
  import opened Router
  import opened RouterProofs

  /** A response as it is stored and replayed. */
  datatype Response = Response(status: int, body: string)

  /** What a key may hold. */
  datatype Value = InFlight | Envelope(response: Response)

  // ---------------------------------------------------------------- keys

  function KeyOf(tenant: string, key: string): string {
    "idem:" + tenant + ":" + key
  }

  function FirstColon(s: string): nat {
    if s == "" || s[0] == ':' then 0 else 1 + FirstColon(s[1..])
  }

  lemma {:induction false} FirstColonAt(a: string, x: string)
    requires ':' !in a
    ensures FirstColon(a + ":" + x) == |a|
  {
    if a != "" {
      FirstColonAt(a[1..], x);
      assert (a + ":" + x)[1..] == a[1..] + ":" + x;
    }
  }

  /** Splitting at a colon is unambiguous if neither left part contains one. */
  lemma SplitAtColon(a: string, x: string, b: string, y: string)
    requires ':' !in a && ':' !in b && a + ":" + x == b + ":" + y
    ensures a == b && x == y
  {
    var whole := a + ":" + x;
    FirstColonAt(a, x);
    FirstColonAt(b, y);
    assert a == whole[..|a|] && b == whole[..|b|];
    assert x == whole[|a| + 1..] && y == whole[|b| + 1..];
  }

  /** Tenants without a colon never share a key. */
  lemma KeysAreInjective(tenant: string, key: string, other: string, otherKey: string)
    requires ':' !in tenant && ':' !in other
    requires KeyOf(tenant, key) == KeyOf(other, otherKey)
    ensures tenant == other && key == otherKey
  {
    var a, b := tenant + ":" + key, other + ":" + otherKey;
    assert KeyOf(tenant, key) == "idem:" + a && KeyOf(other, otherKey) == "idem:" + b;
    assert a == ("idem:" + a)[5..] && b == ("idem:" + b)[5..];
    SplitAtColon(tenant, key, other, otherKey);
  }

  /** Exactly which tenants can collide on keys the handler would claim, which are never empty:
      equal ones, and those of which one, followed by a colon, begins the other. */
  lemma TenantsCollideIff(tenant: string, other: string)
    ensures (exists key, otherKey :: key != "" && otherKey != "" && KeyOf(tenant, key) == KeyOf(other, otherKey))
       <==> tenant == other || tenant + ":" <= other || other + ":" <= tenant
  {
    if tenant == other {
      assert KeyOf(tenant, "k") == KeyOf(other, "k");
    } else if tenant + ":" <= other {
      var _ := CollidingKey(tenant, other);
    } else if other + ":" <= tenant {
      var _ := CollidingKey(other, tenant);
    } else {
      forall key, otherKey ensures KeyOf(tenant, key) != KeyOf(other, otherKey) {
        if KeyOf(tenant, key) == KeyOf(other, otherKey) {
          CollisionIsPrefix(tenant, key, other, otherKey);
          assert false;
        }
      }
    }
  }

  lemma CollidingKey(short: string, long: string) returns (key: string)
    requires short + ":" <= long
    ensures key != "" && KeyOf(short, key) == KeyOf(long, "k")
  {
    key := long[|short| + 1..] + ":" + "k";
    assert long == short + ":" + long[|short| + 1..];
  }

  lemma CollisionIsPrefix(tenant: string, key: string, other: string, otherKey: string)
    requires KeyOf(tenant, key) == KeyOf(other, otherKey)
    ensures tenant == other || tenant + ":" <= other || other + ":" <= tenant
  {
    var a, b := tenant + ":" + key, other + ":" + otherKey;
    assert KeyOf(tenant, key) == "idem:" + a && KeyOf(other, otherKey) == "idem:" + b;
    assert a == ("idem:" + a)[5..] && b == ("idem:" + b)[5..];
    if |tenant| == |other| {
      assert tenant == a[..|tenant|] && other == b[..|other|];
    } else if |tenant| < |other| {
      assert tenant + ":" == a[..|tenant| + 1] && other == b[..|other|];
    } else {
      assert other + ":" == b[..|other| + 1] && tenant == a[..|tenant|];
    }
  }

  // ---------------------------------------------------------------- serving

  /** What the handler was asked to do, as far as serving it goes: accept a deferrable request
      into the queue, walk a ladder, or fail before either (an exception anywhere inside). */
  datatype Work =
    | Accept(jobId: string)
    | Walk(ladder: seq<Rung>, hedge: bool, race: Race)
    | Break

  /** The status and body of _serve, or None for a raised exception. Bodies are opaque. */
  function Served(work: Work, body: string): Option<Response> {
    match work
    case Accept(jobId) => Some(Response(202, jobId))
    case Walk(ladder, hedge, race) =>
      var status := StatusOf(Routed(ladder, hedge, race).routed);
      if status.Some? then Some(Response(status.value, body)) else None
    case Break => None
  }

  /** Only a completion or an accepted job is worth replaying. */
  predicate Storable(r: Response) { r.status < 400 }

  /** What is stored is 200 for a walk some provider answered, or 202 for an accepted job; every
      other ending releases the key. */
  lemma OnlySuccessIsStored(work: Work, body: string)
    ensures var r := Served(work, body);
            (r.Some? && Storable(r.value)) <==>
              || work.Accept?
              || (work.Walk? && var w := Routed(work.ladder, work.hedge, work.race).routed;
                                w.result.Some? && IsOk(w.result.value.outcome))
    ensures var r := Served(work, body);
            r.Some? && Storable(r.value) ==> r.value.status == if work.Accept? then 202 else 200
    ensures Served(work, body).None? <==> work.Break?
  {
    if work.Walk? {
      StatusTellsWhatHappened(work.ladder, work.hedge, work.race);
    }
  }

  /** What is answered: the job's id with 202 for an accepted job; for a walk its body, with 200 if a
      provider answered, 400 if one refused the caller, and else what the exhausted ladder reports. */
  lemma ServedIsTheAnswer(work: Work, body: string)
    ensures var r := Served(work, body);
            match work
            case Accept(jobId) => r == Some(Response(202, jobId))
            case Break => r == None
            case Walk(ladder, hedge, race) =>
              var routed := Routed(ladder, hedge, race).routed;
              && r.Some? && r.value.body == body
              && (r.value.status == 200 <==> routed.result.Some? && IsOk(routed.result.value.outcome))
              && (r.value.status == 400 <==> routed.result.Some? && KindOf(routed.result.value.outcome) == CallerFault)
              && (routed.result.None? ==> Some(r.value.status) == ExhaustedStatus(routed))
  {
    if work.Walk? {
      StatusTellsWhatHappened(work.ladder, work.hedge, work.race);
    }
  }

  // ---------------------------------------------------------------- the guard run alone

  /** What a request is answered with. */
  datatype Reply = Fresh(response: Response) | Replayed(response: Response) | Conflict | Failed

  class Guard {
    var entries: map<string, Value>

    constructor ()
      ensures entries == map[]
    {
      entries := map[];
    }

    /** Take ownership of the key (None), or report what is stored under it. */
    method Claim(key: string) returns (stored: Option<Value>)
      modifies this
      ensures key in old(entries) ==> stored == Some(old(entries)[key]) && entries == old(entries)
      ensures key !in old(entries) ==> stored == None && entries == old(entries)[key := InFlight]
    {
      if key !in entries {
        entries := entries[key := InFlight];
        return None;
      }
      return Some(entries[key]);
    }

    method Put(key: string, response: Response)
      modifies this
      ensures entries == old(entries)[key := Envelope(response)]
    {
      entries := entries[key := Envelope(response)];
    }

    method Release(key: string)
      modifies this
      ensures entries == old(entries) - {key}
    {
      entries := entries - {key};
    }

    /** One keyed request with nobody else about: a stored envelope is replayed and nothing is
        served; otherwise the work is done once, and the key afterwards holds the response if it
        succeeded and is free again if it did not. */
    method ChatCompletions(key: string, work: Work, body: string) returns (reply: Reply, ghost served: bool)
      modifies this
      ensures served <==> key !in old(entries)
      ensures key in old(entries) ==>
                && entries == old(entries)
                && reply == (if old(entries)[key].InFlight? then Conflict else Replayed(old(entries)[key].response))
      ensures key !in old(entries) ==>
                var r := Served(work, body);
                && reply == (if r.Some? then Fresh(r.value) else Failed)
                && entries ==
                     if r.Some? && Storable(r.value) then old(entries)[key := Envelope(r.value)] else old(entries)
    {
      var stored := Claim(key);
      if stored.Some? {
        served := false;
        reply := if stored.value.InFlight? then Conflict else Replayed(stored.value.response);
        return;
      }
      served := true;
      var r := Served(work, body);
      if r.None? {
        Release(key);
        assert entries == old(entries);
        return Failed, served;
      }
      if r.value.status < 400 {
        Put(key, r.value);
      } else {
        Release(key);
        assert entries == old(entries);
      }
      reply := Fresh(r.value);
    }
  }
}
