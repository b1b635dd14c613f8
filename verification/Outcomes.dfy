/** The outcome taxonomy (gateway/providers.py) and the caller-facing status table (gateway/main.py). */
module Outcomes {

  datatype Option<+T> = None | Some(value: T)

  datatype Outcome =
    | Ok
    | RateLimit
    | Timeout
    | ServerError
    | ContentFilter
    | Auth
    | ModelNotFound
    | BadRequest

  const TRIPPABLE: set<Outcome> := {RateLimit, Timeout, ServerError, Auth, ModelNotFound}

  predicate IsOk(o: Outcome) { o == Ok }

  predicate IsTrippable(o: Outcome) { o in TRIPPABLE }

  /** Whether a result ends a walk of the ladder (router._is_final). */
  predicate IsFinal(o: Outcome) { IsOk(o) || !IsTrippable(o) }

  /** The three classes every decision in the gateway is taken over. */
  datatype Kind = Success | ProviderFault | CallerFault

  function KindOf(o: Outcome): Kind {
    if IsOk(o) then Success else if IsTrippable(o) then ProviderFault else CallerFault
  }

  /** How an outcome surfaces to the caller; there is no entry for Ok. */
  const STATUS_BY_OUTCOME: map<Outcome, int> := map[
    RateLimit := 429,
    Timeout := 504,
    ServerError := 502,
    Auth := 502,
    ModelNotFound := 502,
    ContentFilter := 400,
    BadRequest := 400
  ]

  /** The flag splits the taxonomy exactly, and the status table follows the split: rate limits are
      429, timeouts 504, the other faults of a provider 502, those of the caller 400. */
  lemma TaxonomySplits(o: Outcome)
    ensures KindOf(o) == Success <==> o == Ok
    ensures KindOf(o) == CallerFault <==> o == ContentFilter || o == BadRequest
    ensures IsFinal(o) <==> KindOf(o) != ProviderFault
    ensures o in STATUS_BY_OUTCOME <==> !IsOk(o)
    ensures o in STATUS_BY_OUTCOME ==>
              (STATUS_BY_OUTCOME[o] == 400 <==> KindOf(o) == CallerFault)
              && (STATUS_BY_OUTCOME[o] in {429, 502, 504} <==> KindOf(o) == ProviderFault)
              && (STATUS_BY_OUTCOME[o] == 429 <==> o == RateLimit)
              && (STATUS_BY_OUTCOME[o] == 504 <==> o == Timeout)
  {
    match o
    case Ok | RateLimit | Timeout | ServerError | ContentFilter | Auth | ModelNotFound | BadRequest =>
  }
}
