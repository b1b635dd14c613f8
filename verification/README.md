# A verified model of the self-healing gateway

The gateway puts every model call through four small protocols over shared Redis state. This
project models them in Dafny and proves what each guarantees over whole runs.

- **Circuit breaker and health window** (`Health`, `Breaker`, `BreakerRuns`, `BreakerErasure`,
  `BreakerInterleaving`, `BreakerHazards`). One circuit per provider moves between CLOSED, OPEN and
  HALF_OPEN on a sliding window of outcomes. `HealthWindow` and `CircuitBreaker` are classes over the two Redis
  keys; each method is proved against a function on the stored values. `BreakerRuns` reasons about
  every run of uninterrupted operations, `BreakerInterleaving` about every interleaving of single
  Redis commands, and `UninterruptedObserve` ties the two together. `BreakerHazards` says exactly
  which requests in flight can end an outage early.
- **Ladder walk and hedged race** (`Router`, `RouterProofs`, `Ladder`). The methods follow the
  loops of the router; the order in which a race lands is an input, so every theorem is about every
  order. `Ladder` runs whole requests, hedged or not, over real `CircuitBreaker` objects.
- **Delay queue and worker** (`Queue`, `Worker`, `QueueInterleaving`). `DelayQueue` is a class over
  the sorted sets and job hashes. `QueueInterleaving` lets any number of workers interleave at
  single Redis commands, crash between any two of them, and lets hashes expire.
- **Idempotency guard** (`Idempotency`, `IdempotencyInterleaving`). Claim, serve, store or release,
  for any number of concurrent requests, each of which may be cancelled at any await or die.

`Outcomes` holds the taxonomy the four share, `Percentiles` the p95 a circuit trips on, and
`Powers` the doubling both backoffs use.

Times are integer milliseconds, rates, latencies and cooldowns are reals. Random draws, provider
outcomes, latencies and clock readings are inputs. The configuration is assumed sensible:
`0 < cooldown_s <= cooldown_max_s`, `probe_successes_required`, `min_samples` and `max_attempts` at
least 1, `window_s > 0`, delays not negative.

## Where the code and its comments part

- `gateway/breaker.py:165-177` says caller faults cannot reach the trip condition. The condition
  is indeed blind to them, but it is evaluated when one arrives: `CallerFaultTripsIff` gives the
  exact condition under which a caller fault is the event a circuit opens at, and
  `CallerFaultCanBeTheTrippingEvent` an instance.
- `gateway/breaker.py:243-245` calls the unguarded read-modify-write harmless up to an extra probe
  or a cooldown doubled twice. The stored circuit does stay well formed (`CircuitStaysWellFormed`),
  but more than that can happen, under every configuration: a probe's success read before another
  probe's failure closes the circuit the moment after it reopened (`StaleProbeSkipsTheCooldown`),
  and a mere reader that saw the cooldown over undoes a reopening with its doubling
  (`StaleReaderUndoesTheReopening`). `OnlyStaleRequestsCutTheCooldown` and `HarmlessIff` say exactly
  who can do this: a request already in flight whose next commands would write something other than
  the outage, never one that arrives later. Without such a request the cooldown holds in every
  interleaving (`CooldownSurvives`), and in any case only a probe that recorded an ok closes a
  circuit (`ClosedOnlyByAProbe`).
- `gateway/router.py:234-243` ends a walk on a caller fault because every other rung would refuse
  alike. In a race this decides the answer: `HedgeCanReject` shows a request the plain walk answers
  with 200 and the hedged walk with 400; `HedgeRefinesPlainWalk` says exactly when the two differ.
- `gateway/main.py:277-280` and `gateway/idempotency.py:61-68` say every failure path releases the
  claim. The `try` is around `_serve` alone: a request cancelled while it claims, stores or releases
  leaves its key in flight until the TTL lapses. `OrphanedIff` says that this, or the end of the
  process, is exactly when a claim is orphaned; `FailureFreesTheKey` is what does hold of every
  failure inside `_serve`.
- `gateway/queue.py:148-155` says pop_due leaves the queue as it was unless a job is due. If the
  hash of a due job has expired, nothing comes back and the entry is dropped (`PopDue`).

## Model

| member | source | states |
|---|---|---|
| Outcomes.TaxonomySplits | gateway/main.py:37-45 | the non-trippable failures are exactly CONTENT_FILTER and BAD_REQUEST; a result ends a walk iff it is not a provider fault; exactly the failures have a status, 400 iff the caller is at fault, 429 iff a rate limit, 504 iff a timeout, 502 for the other faults of a provider |
| Percentiles.PercentilesInterpolate | gateway/health.py:165-179 | of two or more latencies, in any order, p50, p95 and p99 lie on the line between the two neighbours in the sorted data that the inclusive method names, at exactly its fraction of the way; of one latency all are that latency, of none 0 |
| Percentiles.PercentilesOrdered | gateway/health.py:165-179 | p50 <= p95 <= p99, bounded below and above by latencies of the window |
| Percentiles.PercentilesIgnoreOrder | gateway/health.py:165-179 | the percentiles are a function of the multiset of latencies |
| Percentiles.P95Evidence | gateway/health.py:165-179 | p95 over budget needs at least max(1, ceil((n-1)/20)) latencies over it; n - floor(95(n-1)/100) of them suffice; the bounds meet when n-1 is a multiple of 20 |
| Health.HealthWindow.Record | gateway/health.py:76-100 | appends one sample, evicts those at or before now - window, renews the TTL to twice the window |
| Health.WriteBoundsTheKey | gateway/health.py:92-100 | after a write the key holds the new sample and otherwise only older members still younger than the window |
| Health.HealthWindow.Snapshot | gateway/health.py:103-122 | the summary of what is still live and strictly younger than the window |
| Health.Summarise | gateway/health.py:125-162 | the counting loop computes the summary defined by independent counts per kind, per outcome, and the latencies that count |
| Health.SummaryIsExact | gateway/health.py:125-162 | every sample is counted; the samples that count are the successes and the trippable failures, one latency each; the two rates are their shares of those, 1 and 0 if none counts |
| Health.ErrorsAreCounted | gateway/health.py:136-150 | an outcome has an entry iff it is a failure some sample carries, and the entry is the number of positions that carry it |
| Health.CountsPartitionTheWindow | gateway/health.py:142-150 | successes, trippable failures and caller faults add up to the window; exactly the first two contribute latencies |
| Health.SummaryIgnoresOrder | gateway/health.py:121-162 | windows with the same samples in any order have the same summary |
| Health.VisibleAfterRecord | gateway/health.py:92-122 | write-side eviction and TTL renewal are invisible to every later read, also of a write that comes late, up to one window behind the latest sample |
| Health.WriteIsInvisibleIff | gateway/health.py:90-100 | that much lateness is exact: a write is invisible to all reads after it and after every stored sample iff it is at most one window behind each of them |
| Health.WindowAgreesWithLog | gateway/health.py:92-122 | for every history of writes and clears, writes out of clock order by at most one window, a snapshot of the evicting, expiring window not before any write equals the summary of the full log since the last clear, cut at the window's edge |
| Health.CallerFaultsAreInvisible | gateway/health.py:136-162 | deleting every caller-fault sample changes no count, rate or percentile the breaker reads |
| Health.OnlyCallerFaultsGo | gateway/health.py:136-150 | that deletion removes every caller fault and keeps every other sample as often as it was |
| Health.LatenciesOfTheRest | gateway/health.py:136-150 | the percentiles are taken over the latencies of the samples that are left, one each, in order |
| Breaker.CircuitBreaker.StateOf | gateway/breaker.py:88-121 | reports the circuit and, if the cooldown ran out, leaves it half-open with an empty window |
| Breaker.CircuitBreaker.Allows | gateway/breaker.py:124-144 | admits CLOSED always, OPEN never, HALF_OPEN below the probe ratio |
| Breaker.CircuitBreaker.Record | gateway/breaker.py:147-162 | the whole effect of folding one outcome into hash and window |
| Breaker.CircuitBreaker.MaybeTrip | gateway/breaker.py:165-195 | opens with the base cooldown iff the trip condition holds, else changes nothing |
| Breaker.CircuitBreaker.RecordProbe | gateway/breaker.py:198-234 | counts an ok, closes on the last one needed, reopens with a doubled capped cooldown on a trippable failure, ignores a caller fault |
| Breaker.CircuitBreaker.Observe | gateway/router.py:300-303 | window first, then circuit |
| BreakerRuns.OpensIff | gateway/breaker.py:178-195 | a closed circuit opens on an observe iff min_samples calls count and either more than the threshold's share of them failed or p95 is over budget |
| BreakerRuns.AdmissionFollowsTheCircuit | gateway/breaker.py:124-144 | in every run a check admits iff the circuit it leaves behind reads closed, or reads half-open and the draw is below the probe ratio |
| BreakerRuns.ReadReportsTheCircuit | gateway/breaker.py:88-121 | what a read reports is the state, cooldown and probe count the hash holds when it is done, and the opening time |
| BreakerRuns.HalfOpensIff | gateway/breaker.py:105-111 | a read turns an open circuit half-open iff at least 1000 * cooldown_s ms have passed since it opened, and changes nothing otherwise |
| BreakerRuns.ReadsSeeEveryCall | gateway/health.py:92-122 | in every run whose writes come at most one window late, a reader at any clock not before a write finds all and only the calls observed since the circuit last went half-open that are still inside the window, whatever the write side evicted or let expire |
| BreakerRuns.RecoveryCertificate | gateway/breaker.py:147-162 | over every run, each transition to CLOSED follows, since that half-open entry, exactly probe_successes_required recorded oks, the last at that event, and no trippable failure; the window then holds no failure |
| BreakerRuns.HalfOpenLedger | gateway/breaker.py:198-278 | while half-open, the stored probe count equals the oks recorded since entry and is below the requirement; the window holds no trippable failure and at most that many oks |
| BreakerRuns.NoStaleEvidence | gateway/breaker.py:258-278 | while closed, the trippable failures in the window are, sample for sample, among those recorded since the last close (or the start), and so are all ok samples but at most probe_successes_required |
| BreakerRuns.TripNeedsFreshEvidence | gateway/breaker.py:165-195 | the samples a trip is judged on are fresh in the same sense, those of the tripping call included; so an error-rate trip takes more than error_threshold * min_samples trippable failures recorded since the close, and any trip at least min_samples calls but the closing probes |
| BreakerRuns.CooldownClosedForm | gateway/breaker.py:231-234 | the cooldown after k failed probes is min(base * 2^k, max) |
| BreakerRuns.CooldownDoubles | gateway/breaker.py:231-234 | the cooldown starts from the base, and each failed probe makes it twice what it was or the cap |
| BreakerRuns.OutageLedger | gateway/breaker.py:105-111 | throughout an outage the stored cooldown counts its failed probes and the clock has covered the cooldowns served |
| BreakerRuns.ProbeSpacing | gateway/breaker.py:231-234 | the n-th failed probe of an outage comes no earlier than the first n cooldowns after the trip and leaves the n-times doubled cooldown |
| BreakerRuns.RetryInIsExact | gateway/breaker.py:105-111 | an open circuit turns half-open for a reader exactly retry_in_s after the reading that reported it |
| BreakerRuns.QuarantineHolds | gateway/breaker.py:133-162 | until its cooldown ends an open circuit admits nobody, and no sequence of records changes it |
| BreakerErasure.CallerFaultErasure | gateway/breaker.py:165-195 | whole runs, samples out of clock order by at most one window, go through the same circuit states with caller-fault samples never written, and the trip condition agrees at every later instant |
| BreakerErasure.CallerFaultTripsIff | gateway/breaker.py:160-161 | a caller fault is the event a closed circuit opens at iff the window it arrives to already meets the trip condition |
| BreakerErasure.CallerFaultCanBeTheTrippingEvent | gateway/breaker.py:160-161 | an instance: a bad request opens a circuit because the good sample just aged out |
| BreakerErasure.OnlyCallerFaultsNeverTrip | gateway/breaker.py:178-195 | a run that records only caller faults never leaves CLOSED |
| BreakerInterleaving.CircuitStaysWellFormed | gateway/breaker.py:88-278 | under every interleaving, cancellation and clock: OPEN iff an opening time is stored, CLOSED with the base cooldown, cooldown a capped doubling of the base, probe count below the requirement |
| BreakerInterleaving.UninterruptedObserve | gateway/router.py:300-303 | a request whose commands nobody interrupts is exactly one atomic observe |
| BreakerInterleaving.UninterruptedPeek | gateway/breaker.py:88-121 | a reader whose commands nobody interrupts does exactly one atomic read |
| BreakerHazards.HarmlessIff | gateway/breaker.py:88-278 | the next two commands of a request in flight leave an outage's state, opening time and cooldown alone iff it is harmless, or is about to judge a window that does not trip |
| BreakerHazards.OnlyStaleRequestsCutTheCooldown | gateway/breaker.py:237-255 | in every interleaving, whoever changes the record of an outage inside its cooldown was in flight when the outage was first seen, ever since, and not harmless then |
| BreakerHazards.CooldownSurvives | gateway/breaker.py:105-144 | in every interleaving, if nothing in flight is harmful, an open circuit keeps its opening time and cooldown and admits nobody until the cooldown is over, whatever arrives |
| BreakerHazards.ClosedOnlyByAProbe | gateway/breaker.py:198-228 | in every interleaving, each transition to CLOSED is written by a request that recorded an ok and afterwards saw the circuit half-open and one success short |
| BreakerHazards.StaleProbeSkipsTheCooldown | gateway/breaker.py:198-255 | from the start and under every configuration, two requests can get a circuit closed right after a failed probe reopened it |
| BreakerHazards.StaleReaderUndoesTheReopening | gateway/breaker.py:105-121 | from the start and under every configuration, a reader can turn a circuit half-open with the old cooldown right after a failed probe reopened it |
| Router.Admissible | gateway/router.py:202-216 | the first `limit` rungs whose circuits admit, in ladder order |
| Router.FirstUsable | gateway/router.py:170-199 | a final result wins the race whenever there is one |
| Router.RunHedgedStart | gateway/router.py:96-167 | the race between the first two admissible rungs, its trail, and where the walk resumes |
| Router.Route | gateway/router.py:58-93 | the loop computes the walk the theorems below are about |
| RouterProofs.PlainWalkFindsFirst | gateway/router.py:78-93 | an unhedged walk returns the first admitted rung whose outcome is ok or a caller fault, with one trail entry per rung visited, skips included |
| RouterProofs.DialsIncrease | gateway/router.py:66-93 | dialled rungs strictly increase across race and resumed walk, even if circuits change their answers in between |
| RouterProofs.TrailIsFaithful | gateway/router.py:157-162 | hedged or not, the trail invents and misreports no call and contains the answering one; it leaves out a dialled call only when a settled race cancelled the loser, and then exactly one |
| RouterProofs.RaceIsDecided | gateway/router.py:141-199 | a fired race is decided for the final call, of two final ones for the earlier (the primary if they land at once), and if neither is final for the earlier too (the hedge if they land at once); it answers with that call if final, puts it first in the trail and then the other unless cancelled, and if it settles nothing the walk goes on behind the hedge |
| RouterProofs.HedgeRefinesPlainWalk | gateway/router.py:58-167 | for fixed admissions and outcomes and every race order, the hedged walk settles iff the plain one does, dials at most one more rung, the same rungs if nothing settles, and answers from another rung iff the hedge overtakes a final primary |
| RouterProofs.HedgeCanReject | gateway/router.py:170-199 | the hedge can answer 400 where the plain walk answers 200 |
| RouterProofs.LastFailureIsLastCall | gateway/router.py:45-55 | last_failure is the last entry that is not a skip, absent iff nothing ran |
| RouterProofs.ExhaustionIsHonest | gateway/main.py:427-437 | a walk without a result has every dialled call in its trail, all trippable; 503 iff nothing was dialled, otherwise 429, 502 or 504; the lookup never misses |
| RouterProofs.ExhaustionReportsTheLastCall | gateway/main.py:427-437 | an exhausted walk that dialled anything reports the status of the last call in its trail, however many skips follow it |
| RouterProofs.StatusTellsWhatHappened | gateway/main.py:344-376 | 200 iff a provider answered, 400 iff the walk ended on a caller fault, otherwise an exhausted status |
| Ladder.RouteLadder | gateway/router.py:58-231 | a whole request over real circuits, hedged or not, any provider named any number of times: the walk is that of the rungs the circuits present as it reaches them; the stores of each provider are led from before to after by a chain of events that are, as a multiset, exactly one observe for each call the trail names on it and one check for each of its rungs asked |
| Ladder.RequestExtendsRun | gateway/router.py:58-231 | if a provider's stores are where a run of its circuit left them, a whole request leaves them where that run goes on to, by exactly one observe for each call its trail names on that provider and one check for each of its rungs asked; so the theorems about runs hold of any sequence of requests |
| Ladder.WalkLadder | gateway/router.py:78-93 | the resumed plain walk alone: it finds what the plain walk of its rungs finds; asked once per rung reached, observed once per rung admitted, rungs below the answer untouched |
| Ladder.DialsAreAdmitted | gateway/router.py:78-93 | the rungs dialled are exactly the admitted ones among those visited |
| Queue.DelayBounds | gateway/queue.py:88-96 | a retry is due within [now, now + 1000 * ceiling] ms, the ceiling being the one `CeilingDoubles` determines |
| Queue.CeilingDoubles | gateway/queue.py:88-96 | the ceiling of the first attempt is the smaller of base and cap, and that of each next one the smaller of twice the one before and the cap |
| Queue.JitterIsFull | gateway/queue.py:88-96 | draw 0 gives no delay and draw 1 the ceiling, and a delay can be drawn iff it lies between these |
| Queue.EarliestExists | gateway/queue.py:158-162 | a non-empty ready set has a member with the least score |
| Queue.DelayQueue.Enqueue | gateway/queue.py:99-128 | one QUEUED hash with no attempts, ready now |
| Queue.DelayQueue.PopDue | gateway/queue.py:148-172 | a returned job has the least score and is due; otherwise nothing is due and nothing changed, or exactly the one entry whose hash expired is gone |
| Queue.DelayQueue.Retry | gateway/queue.py:175-201 | QUEUED with the attempt counted or not, then indexed at now + delay |
| Queue.DelayQueue.DeadLetter | gateway/queue.py:217-222 | DEAD first, then indexed |
| Worker.Run | gateway/worker.py:58-94 | a run settles its job by the verdict on the routed outcome |
| Worker.RunOnce | gateway/worker.py:39-55 | one tick: nothing due and nothing changed, an expired entry dropped, or the earliest due job marked, routed and settled |
| Worker.VerdictsAreEarned | gateway/worker.py:65-94 | a deferral dialled nothing; an exhausted run dialled, got only trippable failures and reports one; a refusal is a caller fault or an empty ladder |
| Worker.OneFlagThreeDecisions | gateway/worker.py:81-87 | a caller fault ends the plain walk at that dial, fails the job in the same tick, and leaves both indexes alone |
| QueueInterleaving.EveryJobIsInOnePlace | gateway/queue.py:99-222 | at every step of every interleaving an unexpired job is in exactly one of ready, held by exactly one worker, finalised, abandoned; ready reads QUEUED, dead-lettered reads DEAD |
| QueueInterleaving.AttemptLedger | gateway/worker.py:132-155 | no lost updates: attempts of any job, held or abandoned too, are its counted runs or one short of them, never more than max_attempts; of an unheld, unabandoned job exactly these and below max_attempts; it is DEAD and dead-lettered iff the count reached max_attempts |
| QueueInterleaving.DeadLettersAreOutageCasualties | gateway/queue.py:34-48 | dead-lettered jobs last failed on a provider's fault; FAILED jobs are the caller's fault or have no provider and are not dead-lettered; DONE jobs carry an ok answer |
| QueueInterleaving.TerminalForever | gateway/queue.py:204-222 | DONE, FAILED and DEAD are never left, the hash never changes again, the job never re-enters ready |
| QueueInterleaving.JobKeepsItsRequest | gateway/queue.py:107-124 | in every interleaving a job's payload and submission time stay what they were |
| QueueInterleaving.SubmittedJobKeepsItsRequest | gateway/queue.py:107-124 | in every interleaving, whatever hash a submitted id has later holds the payload and the time it was submitted with |
| QueueInterleaving.HashTellsTheLastRun | gateway/queue.py:175-222 | in every interleaving a DONE job holds the very answer of its last run, a FAILED one the reason it was refused for, a DEAD or requeued one the outcome of its last call or that it waits for capacity, and a result only if DONE; a dead letter is scored with the time its job died |
| QueueInterleaving.LogIsHonest | gateway/worker.py:65-94 | in every interleaving deferrals made no call and counted runs at least one, and each delay a job is requeued with is, in whole milliseconds, exactly the drawn part of its ceiling: the first ceiling for a deferral, that of its attempt for a counted run |
| QueueInterleaving.DueWithinTheCeiling | gateway/queue.py:190-200 | in every interleaving, the score a job has in the ready set, or a worker holds or is about to write, is its submission time if it has not run, and else the time of its last run plus that run's delay, which is exactly the drawn part of min(base, cap) after a deferral whatever its attempts, and of the ceiling of attempts - 1 after a counted run |
| QueueInterleaving.TotalBackoffBound | gateway/queue.py:88-96 | the counted backoff of a job never exceeds the sum of the first max_attempts - 1 ceilings |
| QueueInterleaving.UninterruptedTick | gateway/worker.py:39-55 | command by command and undisturbed, a tick is the sequential worker's tick: a job not due put back, an expired entry dropped, a due job marked, routed and settled |
| QueueInterleaving.NotDuePutsBack | gateway/queue.py:163-165 | popping a job that is not due and putting it back leaves no trace |
| QueueInterleaving.HashesStayReadableIff | gateway/queue.py:236-240 | in any run, every hash stays readable iff no update finds its hash expired |
| QueueInterleaving.ExpiryHarmsIff | gateway/queue.py:236-240 | a hash that expires under a worker is brought back in part by the worker's next command iff the worker had read it and not yet written what the run came to, whatever that is |
| QueueInterleaving.ExpiryWhileRoutingStrandsTheJob | gateway/queue.py:163-171 | from an empty queue and under every configuration, a hash can expire while its job is routed, and the job then ends up neither ready nor held nor over nor abandoned |
| Idempotency.KeysAreInjective | gateway/idempotency.py:24-25 | tenants without a colon never share a stored key |
| Idempotency.TenantsCollideIff | gateway/idempotency.py:24-25 | two tenants have colliding non-empty keys iff they are equal or one followed by a colon begins the other |
| Idempotency.OnlySuccessIsStored | gateway/main.py:285-296 | exactly completions (200) and accepted jobs (202) are stored; everything else releases the key |
| Idempotency.ServedIsTheAnswer | gateway/main.py:318-376 | an accepted job is answered with its id and 202; a walk with its body and 200 iff a provider answered, 400 iff the walk ended on a caller fault, and otherwise what the exhausted ladder reports |
| Idempotency.Guard.Claim | gateway/idempotency.py:28-44 | takes a free key or reports what it holds |
| Idempotency.Guard.ChatCompletions | gateway/main.py:268-315 | one request alone: replay without serving, or serve once and store or free the key |
| IdempotencyInterleaving.OneRequestPerKey | gateway/idempotency.py:36-44 | in every interleaving, whatever is cancelled or dies, at most one request per key is at work, and only while the key reads in flight |
| IdempotencyInterleaving.OrphanedIff | gateway/main.py:268-296 | a key reads in flight with no request behind it iff the request whose claim is in force was cancelled outside _serve, or died, while it held it |
| IdempotencyInterleaving.CancelledClaimIsOrphaned | gateway/main.py:268-275 | it occurs: a request cancelled before it has heard that its claim succeeded |
| IdempotencyInterleaving.OrphanBlocksUntilItLapses | gateway/idempotency.py:36-44 | an orphaned claim stays, in every interleaving, until its TTL lapses |
| IdempotencyInterleaving.ReplaysAreFaithful | gateway/main.py:301-315 | in every interleaving, a request answered with a replay gets status and body exactly as the one successful owner was itself answered and stored them, with no other store under the key and no lapse in between |
| IdempotencyInterleaving.RepliesMatchHistory | gateway/main.py:268-315 | in every interleaving a request is answered with a replay of a response iff the history holds that replay under its key, and with a storable response of its own iff the history holds that it stored it |
| IdempotencyInterleaving.AnswersAreEarned | gateway/main.py:268-315 | in every interleaving each answer is traced to the step that decided it: a response to what serving it came to, a failure to a failed serving, a replay to the envelope the key held, a conflict to a key that held no envelope |
| IdempotencyInterleaving.OneSuccessfulOwner | gateway/idempotency.py:47-58 | two stores under one key are separated by the envelope's expiry |
| IdempotencyInterleaving.FailureFreesTheKey | gateway/main.py:275-296 | in every interleaving, a request that fails inside _serve (exception, cancellation, unstorable status) still owns its key alone, or was lost in a second blow before the release, or has released it, and then the key is free or was claimed anew |
| IdempotencyInterleaving.LapsedClaimBreaksExclusion | gateway/idempotency.py:61-68 | whenever a claim lapses under its request, at any stage, the next arrival owns the same key at the same time, and however the first one ends it takes the claim from the second |

## Left out

- RecoveryCertificate: does not hold when observes of one provider interleave, which `StaleProbeSkipsTheCooldown` shows; the certificate, the evidence and the spacing theorems are stated for uninterrupted observes, and what holds of every interleaving is `ClosedOnlyByAProbe` and `CooldownSurvives`.
- EveryJobIsInOnePlace: hashes may expire at any time, but no update may find its hash gone; `HashesStayReadableIff` says this is exactly what keeps hashes readable, and `ExpiryWhileRoutingStrandsTheJob` that the theorem fails otherwise. The same holds of the other queue theorems.
- WindowAgreesWithLog: writes come at most one window behind any before them, since `WriteIsInvisibleIff` shows eviction visible otherwise.
- OneRequestPerKey: assumes a claim outlives its request, since `LapsedClaimBreaksExclusion` shows it false otherwise.
- RouteLadder: each observe and each admission check is one step, and a cancelled loser of a race leaves either its whole record or none; observes cut off between two commands are in the `BreakerInterleaving` model.
- LiteLLM dispatch, exception classification, cost and real latency: a provider call is an arbitrary outcome and latency.
- Redis being unavailable, and the fail-open handling of it: every command succeeds.
- Collisions of the random tokens in window members and of job ids: both are taken as unique.
- Floating-point rounding: rates, percentiles, cooldowns and delays are reals, and a latency is the value as recorded.
- Probabilities: jitter and probe admission are any draw in range.
- Payload, metadata, response bodies and error texts: opaque, except that an error keeps the outcome it reports.
- The rest of the FastAPI application, the admin and chaos routes, metrics, logging and configuration loading.
