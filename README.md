# Invidious instance selection and failover, in Dafny

This project models the core of the music-streaming server's `InvidiousService`
(`Services/InvidiousService.cs`). The service keeps a fixed list of ten public
Invidious instances. For each instance it keeps two records:

- a **metrics record**: request counters and a running average response time
  over successful requests only;
- a **circuit breaker**: it opens on the third consecutive failure and lets the
  instance through again once the first availability check happens five
  minutes or more after it opened.

Before each stream lookup or search, the service builds a ranking. It filters the
instances through their breakers and sorts them stably by a health score built
from their metrics. It then tries the ranked instances one after another and
records every attempt. The first accepted answer wins. A stream URL that is
found is cached for five hours under `inv_stream_<videoId>`.

The modules follow the structure of the service:

| file | module | what it holds |
|---|---|---|
| common.dfy | `Common` | `Option`, the `DateTime.MinValue` clock origin, distinctness |
| circuit_breaker.dfy | `CircuitBreaker` | breaker records and the `IsInstanceAvailable` / `RecordFailure` / `RecordSuccess` transitions |
| instance_metrics.dfy | `InstanceMetrics` | metrics records, `UpdateMetrics`, and the running mean proved equal to the true mean |
| health_score.dfy | `HealthScore` | `CalculateInstanceScore` |
| ranking.dfy | `Ranking` | the availability filter and the stable descending sort of `GetSortedInstances` |
| result_cache.dfy | `ResultCache` | the memory cache as a map with lazy expiry |
| failover.dfy | `Failover` | the failover loop shared by the stream lookup and the search, as a function |
| responses.dfy | `Responses` | the Invidious response shapes, the audio-format choice, and the search-result projection |
| invidious_service.dfy | `InvidiousServiceModel` | the `InvidiousService` class, whose methods update its dictionaries in place, and the functions that specify them |

The clock is an integer count of milliseconds since `DateTime.MinValue`.
Every method that reads the clock takes it as a parameter. Each HTTP attempt
is a value supplied by the caller, `upstream(instance)`. It holds a reply (a
failure of any kind, or a parsed and possibly `null` body), the response time
measured for it, and the clock when it ended.

Two conventions hold throughout:

- Every method of the class is proved against a pure function of the state before
  the call. The lemmas next to that function prove what the service promises.
- An attempt on a search whose list holds a `null` item among the first `limit`
  items has the verdict `AcceptedThenFaulted`. In the source, the success is
  recorded first; the projection then dereferences the `null` item and throws, and the
  catch block records a failure too. The loop then moves on to the next instance.
  The source code works this way, and the model follows it.

The stream cache key is `inv_stream_<videoId>`, as the code builds it.

## Model

| member | source | states |
|---|---|---|
| CircuitBreaker.RecordFailure | Services/InvidiousService.cs:107-123 | creates a zeroed entry when there is none; adds exactly one to the failure count; at a count of 3 or more the breaker is open with `openedAt` equal to now; below that, the open flag and opening time are unchanged; no other instance's entry changes |
| CircuitBreaker.RecordSuccess | Services/InvidiousService.cs:99-105 | only clears the failure count of an existing entry; never creates an entry; never touches the open flag or opening time; no other entry changes |
| CircuitBreaker.AvailabilityCases | Services/InvidiousService.cs:74-97 | three cases. No entry, or a closed breaker: available, with no change. Open for less than 5 minutes: unavailable, with no change. Open for 5 minutes or more: available, and closed with its count cleared |
| CircuitBreaker.CheckAllAt | Services/InvidiousService.cs:54-55 | asking about a list of instances resets exactly the listed entries whose window has run out. Every other entry and the key set stay the same |
| CircuitBreaker.CheckAllKeepsAvailability | Services/InvidiousService.cs:54-55 | while the filter enumerates the list, earlier availability checks never change the answer of a later one |
| CircuitBreaker.CheckedAvailableIsClosed | Services/InvidiousService.cs:74-97 | every checked instance that was available has a closed breaker afterwards |
| CircuitBreaker.CheckAllKeepsWellFormed | Services/InvidiousService.cs:74-97 | availability checks keep the breaker invariant: a count of at most 3, and open exactly at 3 |
| CircuitBreaker.RecordingKeepsWellFormed | Services/InvidiousService.cs:99-123 | a failure or a success recorded on a closed breaker keeps the invariant; after a success the breaker is still closed |
| CircuitBreaker.ThirdFailureOpens | Services/InvidiousService.cs:107-123 | a breaker with no failures recorded stays available through two failures; after the third it is unavailable, until exactly 5 minutes have passed |
| CircuitBreaker.ReadmissionRestartsCount | Services/InvidiousService.cs:86-92 | re-admission starts the count from zero, so one failure after it does not reopen the breaker |
| InstanceMetrics.Record | Services/InvidiousService.cs:125-148 | one more request, and exactly one more success or one more failure; a failure leaves the average unchanged; the time is updated |
| InstanceMetrics.Update | Services/InvidiousService.cs:125-131 | creates the entry when it is missing; records the attempt in that entry only |
| InstanceMetrics.UpdateKeepsConsistent | Services/InvidiousService.cs:132-145 | successes + failures == total is invariant |
| InstanceMetrics.RecordKeepsAverageNonNegative | Services/InvidiousService.cs:136-141 | with non-negative response times the average never goes negative; the division is by a count of at least 1 |
| InstanceMetrics.ReplayAveragesSuccesses | Services/InvidiousService.cs:125-148 | after any sequence of updates from a fresh record, the counters count the attempts, their successes and their failures, and the average is the mean of the successful attempts' response times only |
| InstanceMetrics.MeanStep | Services/InvidiousService.cs:139-141 | the incremental-mean update of one new value gives the mean of all the values |
| InstanceMetrics.FailedTimeIgnored | Services/InvidiousService.cs:134-145 | worked example: successes of 100 ms and 300 ms around a failed 5000 ms attempt average 200 ms |
| HealthScore.ScoreRange | Services/InvidiousService.cs:60-72 | the score is exactly 50 without a metrics entry or with zero requests; otherwise it lies in [0, 100] when successes <= total and the average is >= 0 |
| HealthScore.MoreSuccessesScoreHigher | Services/InvidiousService.cs:67-71 | with equal totals and averages, more successes never score lower |
| HealthScore.FasterScoresHigher | Services/InvidiousService.cs:67-71 | with equal counters, a lower average response time never scores lower |
| Ranking.AvailableInMembers | Services/InvidiousService.cs:54-55 | the filter keeps exactly the available instances |
| Ranking.AvailableInDistinct | Services/InvidiousService.cs:54-55 | the filter keeps the instances distinct |
| Ranking.SortByKeyPermutes | Services/InvidiousService.cs:56 | the descending sort is a permutation of its input (multiset equality) |
| Ranking.SortByKeyOrders | Services/InvidiousService.cs:56 | the sort output has non-increasing keys |
| Ranking.SortByKeyStable | Services/InvidiousService.cs:56 | the sort is stable: for every key value, the elements with that key keep their input order |
| Ranking.SortByKeyDistinct | Services/InvidiousService.cs:56 | the sort keeps distinct elements distinct |
| Ranking.RankSpec | Services/InvidiousService.cs:52-58 | `GetSortedInstances` returns exactly the available instances, each once, by non-increasing score; instances with equal scores stay in instance-list order |
| Ranking.AllOpenRanksNothing | Services/InvidiousService.cs:52-58 | with every breaker open inside its window, the ranking is empty |
| ResultCache.Store | Services/InvidiousService.cs:222 | the key then holds the value and is live exactly until now + TTL; every other entry, and whether it hits, stays the same |
| Failover.FirstAccepted | Services/InvidiousService.cs:168-259 | the position of the first accepted attempt: no attempt before it is accepted, and the attempt at it is |
| Failover.Attempted | Services/InvidiousService.cs:168-259 | the instances the loop tries are the ranked prefix up to and including the first accepted one, or all of them |
| Failover.DispatchWinner | Services/InvidiousService.cs:168-262 | the loop returns the first accepted answer, from the instance that gave it; it returns nothing exactly when no attempt is accepted |
| Failover.RecordedIsLocal | Services/InvidiousService.cs:99-148 | recording an attempt on one instance never touches another instance's entries |
| Failover.RecordedDependsOnlyOnOwnEntries | Services/InvidiousService.cs:99-148 | what an attempt records for an instance depends only on that instance's own entries |
| Failover.DispatchIsLocal | Services/InvidiousService.cs:168-259 | over a list without repeats, each tried instance ends up as if only its own attempt had been recorded; untried instances are untouched |
| Failover.RecordedCounts | Services/InvidiousService.cs:168-359 | a rejected attempt adds one failed request and one consecutive failure. An accepted attempt adds one successful request and clears an existing failure count. A faulted acceptance adds two requests, one success and one failure, and leaves the failure count at 1 |
| Failover.RecordedKeepsHealthy | Services/InvidiousService.cs:99-148 | one attempt on a closed breaker keeps the counters consistent and the breakers well formed |
| Failover.DispatchKeepsHealthy | Services/InvidiousService.cs:168-259 | the whole loop keeps this health invariant when each instance is tried at most once and every candidate is closed |
| Responses.BestAudio | Services/InvidiousService.cs:204-207 | returns no format exactly when no entry's type contains "audio"; otherwise the first audio entry of maximal bitrate (a null bitrate counts as 0) |
| Responses.BestAudioUnique | Services/InvidiousService.cs:204-207 | the chosen audio entry is unique |
| Responses.AllPresent | Services/InvidiousService.cs:204-205 | the list of entries, defined exactly when no entry is null (a null entry makes the filter throw) |
| Responses.StreamVerdict | Services/InvidiousService.cs:176-225 | a reply is accepted exactly when the chosen audio format has a URL, with that URL. Every other path fails: error status, null video, null or empty formats, a null entry, no audio entry. A stream reply never counts as a success followed by a failure |
| Responses.NoFallbackToOtherFormat | Services/InvidiousService.cs:204-216 | a chosen format without a URL fails the attempt even when a lower-bitrate audio format has one |
| Responses.TakeCount | Services/InvidiousService.cs:313 | `Take(limit)` keeps min(limit, n) items, and none for a limit of 0 or less |
| Responses.SearchVerdict | Services/InvidiousService.cs:290-326 | the outcome is a failure exactly for a failed call, a null list or an empty list. It is a fault after the success exactly when a null item is among the first `limit` items. Otherwise it returns `min(limit, n)` tracks, in upstream order, each the null-coalescing projection of its item |
| Responses.ItemsPastLimitIgnored | Services/InvidiousService.cs:312-322 | items past the limit are never looked at |
| InvidiousServiceModel.KnownInstancesDistinct | Services/InvidiousService.cs:19-31 | the ten configured instances are distinct |
| InvidiousServiceModel.Report | Services/InvidiousService.cs:366-384 | one entry per configured instance, keyed by the instance |
| InvidiousServiceModel.ReportIsCoherent | Services/InvidiousService.cs:366-384 | the reported score matches the reported rate and average. An instance never tried reports zeros, the neutral score and `DateTime.MinValue`. The breaker flag is set exactly for an open breaker. With consistent metrics, success + failed == total |
| InvidiousServiceModel.CacheHitShortCircuits | Services/InvidiousService.cs:152-158 | a live cache entry is returned with no ranking, no attempt and no state change |
| InvidiousServiceModel.StreamFirstSuccessWins | Services/InvidiousService.cs:160-262 | on a miss, the lookup returns the first accepted URL in ranked order, or none when there is none. A URL found is cached under the video key for exactly 5 hours from its attempt, and no other entry changes. With no URL, the cache is unchanged |
| InvidiousServiceModel.StreamAttemptsRecorded | Services/InvidiousService.cs:168-259 | each instance is tried at most once and recorded as its own attempt says; instances not tried keep their state |
| InvidiousServiceModel.NothingExpiredNothingChecked | Services/InvidiousService.cs:74-97 | with no expired breaker, the availability checks change nothing |
| InvidiousServiceModel.AllOpenNoAttempt | Services/InvidiousService.cs:160-166 | with every breaker open inside its window, a miss returns nothing and changes nothing |
| InvidiousServiceModel.RankedAreClosed | Services/InvidiousService.cs:52-58 | the ranked instances are distinct and all closed after the check |
| InvidiousServiceModel.ResolveKeepsHealthy | Services/InvidiousService.cs:150-263 | a stream lookup keeps the counters consistent and the breakers well formed |
| InvidiousServiceModel.SearchFirstSuccessWins | Services/InvidiousService.cs:267-363 | a search returns the first accepted reply's tracks: `min(limit, n)` in order, projected. It returns the empty list when no instance is available or no reply is accepted |
| InvidiousServiceModel.SearchAttemptsRecorded | Services/InvidiousService.cs:275-360 | each instance is tried at most once and recorded as its own attempt says; instances not tried keep their state |
| InvidiousServiceModel.SearchKeepsHealthy | Services/InvidiousService.cs:265-364 | a search keeps the counters consistent and the breakers well formed |
| InvidiousServiceModel.InvidiousService.constructor | Services/InvidiousService.cs:19-48 | the service starts with the ten instances, empty dictionaries, an empty cache, and its invariant |
| InvidiousServiceModel.InvidiousService.IsInstanceAvailable | Services/InvidiousService.cs:74-97 | the answer is `Available`; the breakers become `CheckOne` of the old ones; nothing else changes |
| InvidiousServiceModel.InvidiousService.RecordSuccess | Services/InvidiousService.cs:99-105 | the breakers become `RecordSuccess` of the old ones in place |
| InvidiousServiceModel.InvidiousService.RecordFailure | Services/InvidiousService.cs:107-123 | the breakers become `RecordFailure` of the old ones in place |
| InvidiousServiceModel.InvidiousService.UpdateMetrics | Services/InvidiousService.cs:125-148 | the metrics become `Update` of the old ones in place |
| InvidiousServiceModel.InvidiousService.GetSortedInstances | Services/InvidiousService.cs:52-58 | returns `Rank` of the state before the call, and leaves the breakers after every availability check |
| InvidiousServiceModel.InvidiousService.GetStreamUrl | Services/InvidiousService.cs:150-263 | returns `ResolveStream` of the state before the call; its metrics, breakers and cache become those of `ResolveStream`; the invariant is kept |
| InvidiousServiceModel.InvidiousService.Search | Services/InvidiousService.cs:265-364 | returns `SearchTracks` of the state before the call; the metrics and breakers become those of `SearchTracks`; the cache is untouched; the invariant is kept |

## Left out

- HTTP, JSON deserialisation, the 10-second timeout, cancellation and `async`/`await`. Each attempt is a caller-supplied `Attempt`. Every failure path (status, timeout, HTTP, JSON, any other exception) becomes `Failed` because the source handles them all alike.
- URL building and `Uri.EscapeDataString`. The search query reaches the model only through the supplied `upstream`, so `Search` takes no query.
- Logging.
- Concurrency. The dictionaries are shared across requests without locks. The model is sequential.
- IEEE doubles. Scores and averages are exact `real`s.
- `InstanceMetrics.Record`: does not model 32-bit `int` overflow of the counters, which are unbounded `nat`s.
- `InvidiousServiceModel.InvidiousService.GetStreamUrl`: the source reads `DateTime.UtcNow` separately for each availability check, for `OpenedAt`, for `LastUpdated` and for the cache write. The model uses one clock for the ranking, and each attempt's own end time for that attempt's writes.
- `InvidiousServiceModel.InvidiousService.Search`: when the projection faults, the source measures a second response time for the failure it records. The model records the attempt's single response time twice.
- `IMemoryCache` internals: the cache is a map with lazy expiry. Expired entries are never evicted, and there are no size limits.
- `GetMetrics` builds anonymous objects. Here `Report` returns a map of `InstanceReport` records.
- `Services/StreamService.cs`, the controllers, `Program.cs` and `LoggingHandler.cs` are not part of this model. They are a wrapper over an external library, HTTP endpoints, and wiring.
