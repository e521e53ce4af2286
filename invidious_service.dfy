/**
 * `InvidiousService`: the fixed list of Invidious instances, the metrics and
 * circuit-breaker dictionaries, and the result cache, with the operations
 * that update them in place.
 *
 * Each public operation is specified by a function of the state before the
 * call (`ResolveStream`, `SearchTracks`, `Report`); the lemmas of this module
 * say what those functions promise.
 */
module InvidiousServiceModel {
  import opened Common
  import opened CircuitBreaker
  import opened InstanceMetrics
  import opened HealthScore
  import opened Ranking
  import opened ResultCache
  import opened Failover
  import opened Responses

  /** The instances the service is built with, in preference order. */
  const KnownInstances: seq<string> := [
    "https://invidious.f5.si",
    "https://invidious.privacyredirect.com",
    "https://inv.tux.pizza",
    "https://invidious.projectsegfau.lt",
    "https://yewtu.be",
    "https://vid.puffyan.us",
    "https://inv.nadeko.net",
    "https://invidious.nerdvpn.de",
    "https://inv.perditum.com",
    "https://invidious.privacydev.net"
  ]

  /** The ten known instances are all different. */
  lemma KnownInstancesDistinct()
    ensures |KnownInstances| == 10 && Distinct(KnownInstances)
  {
  }

  /** The cache key of a video's stream URL. */
  function StreamCacheKey(videoId: string): string {
    "inv_stream_" + videoId
  }

  /** How the stream lookup judges the attempt on each instance. */
  function StreamOutcomes(upstream: string -> Attempt<Video>): string -> Outcome<string> {
    x => var a := upstream(x); Outcome(StreamVerdict(a.reply), a.responseTime, a.at)
  }

  /** How the search judges the attempt on each instance. */
  function SearchOutcomes(upstream: string -> Attempt<seq<Option<SearchResult>>>, limit: int): string -> Outcome<seq<Track>> {
    x => var a := upstream(x); Outcome(SearchVerdict(a.reply, limit), a.responseTime, a.at)
  }

  /** The registry after `GetSortedInstances` at `now`: re-admissions applied, metrics untouched. */
  function Checked(instances: seq<string>, reg: Registry, now: int): Registry {
    Registry(reg.metrics, CheckAll(reg.breakers, instances, now))
  }

  /** A stream lookup's answer with the registry and cache after it. */
  datatype Resolved = Resolved(url: Option<string>, registry: Registry, cache: Cache)

  /** A search's answer with the registry after it. */
  datatype Searched = Searched(tracks: seq<Track>, registry: Registry)

  /** `GetStreamUrlAsync(videoId)` started at clock `now`, with `upstream` answering each instance. */
  function ResolveStream(instances: seq<string>, reg: Registry, cache: Cache, videoId: string, now: int,
                         upstream: string -> Attempt<Video>): Resolved
  {
    var key := StreamCacheKey(videoId);
    if Hit(cache, key, now) then Resolved(Some(cache[key].value), reg, cache)
    else
      var ranked := Rank(reg.breakers, reg.metrics, instances, now);
      var checked := Checked(instances, reg, now);
      if ranked == [] then Resolved(None, checked, cache)
      else
        var d := Dispatch(checked, ranked, StreamOutcomes(upstream));
        match d.winner
        case None => Resolved(None, d.registry, cache)
        case Some(w) => Resolved(Some(w.value), d.registry, Store(cache, key, w.value, w.at, StreamTtlMs))
  }

  /** `SearchAsync(query, limit)` started at clock `now`, with `upstream` answering each instance. */
  function SearchTracks(instances: seq<string>, reg: Registry, now: int,
                        upstream: string -> Attempt<seq<Option<SearchResult>>>, limit: int): Searched
  {
    var ranked := Rank(reg.breakers, reg.metrics, instances, now);
    var checked := Checked(instances, reg, now);
    if ranked == [] then Searched([], checked)
    else
      var d := Dispatch(checked, ranked, SearchOutcomes(upstream, limit));
      match d.winner
      case None => Searched([], d.registry)
      case Some(w) => Searched(w.value, d.registry)
  }

  /** A live cache entry answers the lookup: no ranking, no attempt, nothing recorded. */
  lemma CacheHitShortCircuits(instances: seq<string>, reg: Registry, cache: Cache, videoId: string, now: int,
                              upstream: string -> Attempt<Video>)
    requires Hit(cache, StreamCacheKey(videoId), now)
    ensures ResolveStream(instances, reg, cache, videoId, now, upstream)
              == Resolved(Some(cache[StreamCacheKey(videoId)].value), reg, cache)
  {
  }

  /**
   * On a cache miss the lookup returns the URL of the first ranked instance
   * whose reply is accepted, and nothing when there is none; a URL found is
   * cached under the video's key for exactly 5 hours from the successful
   * attempt, and no other cache entry changes.
   */
  lemma StreamFirstSuccessWins(instances: seq<string>, reg: Registry, cache: Cache, videoId: string, now: int,
                               upstream: string -> Attempt<Video>)
    requires !Hit(cache, StreamCacheKey(videoId), now)
    ensures var res := ResolveStream(instances, reg, cache, videoId, now, upstream);
            var ranked, outcome := Rank(reg.breakers, reg.metrics, instances, now), StreamOutcomes(upstream);
            var k, key := FirstAccepted(ranked, outcome), StreamCacheKey(videoId);
            (res.url.Some? <==> k < |ranked|) &&
            (k == |ranked| ==> res.cache == cache) &&
            (k < |ranked| ==>
               res.url == Some(outcome(ranked[k]).verdict.value) &&
               key in res.cache && res.cache[key].value == res.url.value &&
               (forall t :: Hit(res.cache, key, t) <==> t < outcome(ranked[k]).at + StreamTtlMs) &&
               (forall c :: c != key && c in cache ==> c in res.cache && res.cache[c] == cache[c]))
  {
    var ranked := Rank(reg.breakers, reg.metrics, instances, now);
    DispatchWinner(Checked(instances, reg, now), ranked, StreamOutcomes(upstream));
  }

  /**
   * On a cache miss, over an instance list without repeats, each instance is
   * tried at most once: every instance up to and including the winner is
   * recorded exactly as its own attempt says, and every other instance
   * keeps its metrics and its (possibly re-admitted) breaker.
   */
  lemma StreamAttemptsRecorded(instances: seq<string>, reg: Registry, cache: Cache, videoId: string, now: int,
                               upstream: string -> Attempt<Video>, x: string)
    requires Distinct(instances) && !Hit(cache, StreamCacheKey(videoId), now)
    ensures var res := ResolveStream(instances, reg, cache, videoId, now, upstream);
            var ranked, outcome := Rank(reg.breakers, reg.metrics, instances, now), StreamOutcomes(upstream);
            var checked := Checked(instances, reg, now);
            (x in Attempted(ranked, outcome) ==> SameAt(res.registry, Recorded(checked, x, outcome(x)), x)) &&
            (x !in Attempted(ranked, outcome) ==> SameAt(res.registry, checked, x))
  {
    var ranked := Rank(reg.breakers, reg.metrics, instances, now);
    RankSpec(reg.breakers, reg.metrics, instances, now);
    DispatchIsLocal(Checked(instances, reg, now), ranked, StreamOutcomes(upstream), x);
  }

  /** Re-admission only happens to an expired breaker, so with none expired the check changes nothing. */
  lemma NothingExpiredNothingChecked(bs: Breakers, xs: seq<string>, now: int)
    requires forall x :: x in xs && x in bs ==> !Expired(bs[x], now)
    ensures CheckAll(bs, xs, now) == bs
  {
    forall x | x in bs ensures CheckAll(bs, xs, now)[x] == bs[x] {
      CheckAllAt(bs, xs, now, x);
    }
    CheckAllAt(bs, xs, now, "");
  }

  /**
   * With every breaker open inside its 5-minute window, a cache miss returns
   * nothing and changes nothing: no instance is tried.
   */
  lemma AllOpenNoAttempt(instances: seq<string>, reg: Registry, cache: Cache, videoId: string, now: int,
                         upstream: string -> Attempt<Video>)
    requires !Hit(cache, StreamCacheKey(videoId), now)
    requires forall x :: x in instances ==>
               x in reg.breakers && reg.breakers[x].isOpen && now - reg.breakers[x].openedAt < ResetWindowMs
    ensures ResolveStream(instances, reg, cache, videoId, now, upstream) == Resolved(None, reg, cache)
  {
    AllOpenRanksNothing(reg.breakers, reg.metrics, instances, now);
    NothingExpiredNothingChecked(reg.breakers, instances, now);
  }

  /** The instances a lookup may try are distinct and have closed breakers after the check. */
  lemma RankedAreClosed(instances: seq<string>, reg: Registry, now: int)
    requires Distinct(instances)
    ensures var ranked := Rank(reg.breakers, reg.metrics, instances, now);
            Distinct(ranked) && forall x :: x in ranked ==> Closed(Checked(instances, reg, now).breakers, x)
  {
    var ranked := Rank(reg.breakers, reg.metrics, instances, now);
    RankSpec(reg.breakers, reg.metrics, instances, now);
    forall x | x in ranked ensures Closed(Checked(instances, reg, now).breakers, x) {
      CheckedAvailableIsClosed(reg.breakers, instances, now, x);
    }
  }

  /** A stream lookup keeps the metrics consistent and the breakers well formed. */
  lemma ResolveKeepsHealthy(instances: seq<string>, reg: Registry, cache: Cache, videoId: string, now: int,
                            upstream: string -> Attempt<Video>)
    requires Distinct(instances) && Healthy(reg)
    ensures Healthy(ResolveStream(instances, reg, cache, videoId, now, upstream).registry)
  {
    CheckAllKeepsWellFormed(reg.breakers, instances, now);
    RankedAreClosed(instances, reg, now);
    DispatchKeepsHealthy(Checked(instances, reg, now), Rank(reg.breakers, reg.metrics, instances, now),
                         StreamOutcomes(upstream));
  }

  /**
   * A search returns the first accepted reply's tracks (at most `limit` of
   * them, projected in upstream order) and the empty list when no reply is
   * accepted, including when no instance is available.
   */
  lemma SearchFirstSuccessWins(instances: seq<string>, reg: Registry, now: int,
                               upstream: string -> Attempt<seq<Option<SearchResult>>>, limit: int)
    ensures var res := SearchTracks(instances, reg, now, upstream, limit);
            var ranked, outcome := Rank(reg.breakers, reg.metrics, instances, now), SearchOutcomes(upstream, limit);
            var k := FirstAccepted(ranked, outcome);
            (k == |ranked| ==> res.tracks == []) &&
            (k < |ranked| ==>
               var items := upstream(ranked[k]).reply.body.value;
               res.tracks == outcome(ranked[k]).verdict.value &&
               |res.tracks| == TakeCount(limit, |items|) &&
               forall i :: 0 <= i < |res.tracks| ==> items[i].Some? && res.tracks[i] == ToTrack(items[i].value))
  {
    var ranked := Rank(reg.breakers, reg.metrics, instances, now);
    DispatchWinner(Checked(instances, reg, now), ranked, SearchOutcomes(upstream, limit));
  }

  /** Over an instance list without repeats, a search records each instance's attempt at most once. */
  lemma SearchAttemptsRecorded(instances: seq<string>, reg: Registry, now: int,
                               upstream: string -> Attempt<seq<Option<SearchResult>>>, limit: int, x: string)
    requires Distinct(instances)
    ensures var res := SearchTracks(instances, reg, now, upstream, limit);
            var ranked, outcome := Rank(reg.breakers, reg.metrics, instances, now), SearchOutcomes(upstream, limit);
            var checked := Checked(instances, reg, now);
            (x in Attempted(ranked, outcome) ==> SameAt(res.registry, Recorded(checked, x, outcome(x)), x)) &&
            (x !in Attempted(ranked, outcome) ==> SameAt(res.registry, checked, x))
  {
    var ranked := Rank(reg.breakers, reg.metrics, instances, now);
    RankSpec(reg.breakers, reg.metrics, instances, now);
    DispatchIsLocal(Checked(instances, reg, now), ranked, SearchOutcomes(upstream, limit), x);
  }

  /** A search keeps the metrics consistent and the breakers well formed. */
  lemma SearchKeepsHealthy(instances: seq<string>, reg: Registry, now: int,
                           upstream: string -> Attempt<seq<Option<SearchResult>>>, limit: int)
    requires Distinct(instances) && Healthy(reg)
    ensures Healthy(SearchTracks(instances, reg, now, upstream, limit).registry)
  {
    CheckAllKeepsWellFormed(reg.breakers, instances, now);
    RankedAreClosed(instances, reg, now);
    DispatchKeepsHealthy(Checked(instances, reg, now), Rank(reg.breakers, reg.metrics, instances, now),
                         SearchOutcomes(upstream, limit));
  }

  /** One entry of `GetMetrics`. */
  datatype InstanceReport = InstanceReport(
    total: nat,
    success: nat,
    failed: nat,
    successRate: real,
    avgResponseTime: real,
    score: real,
    circuitBreakerOpen: bool,
    lastUpdated: int)

  /** The entry of `x`: a missing metrics record reports zeros and the minimum time. */
  function ReportOf(reg: Registry, x: string): InstanceReport {
    var m := InstanceMetrics.Lookup(reg.metrics, x);
    InstanceReport(
      m.totalRequests, m.successfulRequests, m.failedRequests,
      if x in reg.metrics && m.totalRequests > 0
      then (m.successfulRequests as real) * 100.0 / (m.totalRequests as real) else 0.0,
      m.averageResponseTime,
      Score(reg.metrics, x),
      x in reg.breakers && reg.breakers[x].isOpen,
      m.lastUpdated)
  }

  /** `GetMetrics()`: one entry per known instance, keyed by the instance. */
  function Report(instances: seq<string>, reg: Registry): (r: map<string, InstanceReport>)
    ensures r.Keys == set x | x in instances
    ensures forall x :: x in r ==> r[x] == ReportOf(reg, x)
  {
    map x | x in instances :: ReportOf(reg, x)
  }

  /**
   * The report agrees with itself and with the breakers: the score it shows
   * is the one computed from the success rate and average it shows, an
   * instance never tried shows zeros and the neutral score, the breaker flag
   * is set exactly for an open breaker, and with consistent metrics the
   * successes and failures add up to the total.
   */
  lemma ReportIsCoherent(instances: seq<string>, reg: Registry, x: string)
    requires x in instances
    ensures var e := Report(instances, reg)[x];
            (e.total == 0 ==> e.score == NeutralScore && e.successRate == 0.0) &&
            (e.total > 0 ==>
               e.score == e.successRate * 0.7 + (if 0.0 > 100.0 - e.avgResponseTime / 10.0 then 0.0
                                                 else 100.0 - e.avgResponseTime / 10.0) * 0.3) &&
            (x !in reg.metrics ==> e == InstanceReport(0, 0, 0, 0.0, 0.0, NeutralScore, e.circuitBreakerOpen, MinTime)) &&
            (e.circuitBreakerOpen <==> !Closed(reg.breakers, x)) &&
            (Consistent(reg.metrics) ==> e.success + e.failed == e.total)
  {
  }

  class InvidiousService {
    const instances: seq<string>
    var metrics: MetricsTable
    var breakers: Breakers
    var cache: Cache

    /** The object invariant: no instance listed twice, consistent counters, well-formed breakers. */
    ghost predicate Valid()
      reads this
    {
      Distinct(instances) && Healthy(Registry(metrics, breakers))
    }

    /** The two dictionaries the failover loops write. */
    function State(): Registry
      reads this
    {
      Registry(metrics, breakers)
    }

    /** A new service over the known instances, with no metrics, no breakers and an empty cache. */
    constructor()
      ensures instances == KnownInstances && metrics == map[] && breakers == map[] && cache == map[]
      ensures Valid()
    {
      KnownInstancesDistinct();
      instances := KnownInstances;
      metrics := map[];
      breakers := map[];
      cache := map[];
    }

    /** `GetMetrics()`. */
    function GetMetrics(): map<string, InstanceReport>
      reads this
    {
      Report(instances, State())
    }

    /** `IsInstanceAvailable(x)` at clock `now`, with its lazy re-admission. */
    method IsInstanceAvailable(x: string, now: int) returns (available: bool)
      modifies this
      ensures available == Available(old(breakers), x, now)
      ensures breakers == CheckOne(old(breakers), x, now)
      ensures metrics == old(metrics) && cache == old(cache)
    {
      if x !in breakers {
        return true;
      }
      var breaker := breakers[x];
      if breaker.isOpen {
        if now - breaker.openedAt >= ResetWindowMs {
          breakers := breakers[x := breaker.(isOpen := false, consecutiveFailures := 0)];
          return true;
        }
        return false;
      }
      return true;
    }

    /** `RecordSuccess(x)`. */
    method RecordSuccess(x: string)
      modifies this
      ensures breakers == CircuitBreaker.RecordSuccess(old(breakers), x)
      ensures metrics == old(metrics) && cache == old(cache)
    {
      if x in breakers {
        breakers := breakers[x := breakers[x].(consecutiveFailures := 0)];
      }
    }

    /** `RecordFailure(x)` at clock `now`. */
    method RecordFailure(x: string, now: int)
      modifies this
      ensures breakers == CircuitBreaker.RecordFailure(old(breakers), x, now)
      ensures metrics == old(metrics) && cache == old(cache)
    {
      if x !in breakers {
        breakers := breakers[x := CircuitBreaker.Fresh];
      }
      var breaker := breakers[x];
      breaker := breaker.(consecutiveFailures := breaker.consecutiveFailures + 1);
      if breaker.consecutiveFailures >= FailureThreshold {
        breaker := breaker.(isOpen := true, openedAt := now);
      }
      breakers := breakers[x := breaker];
    }

    /** `UpdateMetrics(x, success, responseTime)` at clock `now`. */
    method UpdateMetrics(x: string, success: bool, responseTime: real, now: int)
      modifies this
      ensures metrics == Update(old(metrics), x, success, responseTime, now)
      ensures breakers == old(breakers) && cache == old(cache)
    {
      if x !in metrics {
        metrics := metrics[x := InstanceMetrics.Fresh];
      }
      var m := metrics[x];
      m := m.(totalRequests := m.totalRequests + 1);
      if success {
        m := m.(successfulRequests := m.successfulRequests + 1);
        m := m.(averageResponseTime := RunningMean(m.averageResponseTime, m.successfulRequests, responseTime));
      } else {
        m := m.(failedRequests := m.failedRequests + 1);
      }
      m := m.(lastUpdated := now);
      metrics := metrics[x := m];
    }

    /**
     * `GetSortedInstances()` at clock `now`: asks `IsInstanceAvailable` about
     * every instance in list order, then sorts the available ones by score.
     */
    method GetSortedInstances(now: int) returns (sorted: seq<string>)
      modifies this
      ensures sorted == Rank(old(breakers), metrics, instances, now)
      ensures breakers == CheckAll(old(breakers), instances, now)
      ensures metrics == old(metrics) && cache == old(cache)
    {
      var available: seq<string> := [];
      var i := 0;
      while i < |instances|
        invariant 0 <= i <= |instances|
        invariant breakers == CheckAll(old(breakers), instances[..i], now)
        invariant available == AvailableIn(old(breakers), instances[..i], now)
        invariant metrics == old(metrics) && cache == old(cache)
      {
        var x := instances[i];
        CheckAllKeepsAvailability(old(breakers), instances[..i], now, x);
        var ok := IsInstanceAvailable(x, now);
        if ok {
          available := available + [x];
        }
        assert instances[..i + 1][..i] == instances[..i];
        i := i + 1;
      }
      assert instances[..i] == instances;
      sorted := SortByKey(ScoreIn(metrics), available);
    }

    /**
     * `GetStreamUrlAsync(videoId)` at clock `now`, `upstream` giving the
     * attempt on each instance.
     */
    method GetStreamUrl(videoId: string, now: int, upstream: string -> Attempt<Video>) returns (url: Option<string>)
      requires Valid()
      modifies this
      ensures Valid()
      ensures var res := ResolveStream(instances, old(State()), old(cache), videoId, now, upstream);
              url == res.url && State() == res.registry && cache == res.cache
    {
      ghost var reg0, cache0 := State(), cache;
      var key := StreamCacheKey(videoId);
      if key in cache && now < cache[key].expiresAt {
        return Some(cache[key].value);
      }
      ResolveKeepsHealthy(instances, reg0, cache0, videoId, now, upstream);
      var ranked := GetSortedInstances(now);
      if ranked == [] {
        return None;
      }
      ghost var outcome := StreamOutcomes(upstream);
      ghost var checked := State();
      var i := 0;
      while i < |ranked|
        invariant 0 <= i <= |ranked|
        invariant Dispatch(State(), ranked[i..], outcome) == Dispatch(checked, ranked, outcome)
        invariant cache == cache0
      {
        var x := ranked[i];
        var attempt := upstream(x);
        var verdict := StreamVerdict(attempt.reply);
        ghost var before := State();
        assert outcome(x) == Outcome(verdict, attempt.responseTime, attempt.at);
        if verdict.Accepted? {
          DispatchStops(before, ranked, i, outcome);
          UpdateMetrics(x, true, attempt.responseTime, attempt.at);
          RecordSuccess(x);
          assert State() == Recorded(before, x, outcome(x));
          var streamUrl := verdict.value;
          cache := cache[key := Entry(streamUrl, attempt.at + StreamTtlMs)];
          return Some(streamUrl);
        }
        DispatchGoesOn(before, ranked, i, outcome);
        UpdateMetrics(x, false, attempt.responseTime, attempt.at);
        RecordFailure(x, attempt.at);
        assert State() == Recorded(before, x, outcome(x));
        i := i + 1;
      }
      return None;
    }

    /**
     * `SearchAsync(query, limit)` at clock `now`, `upstream` giving the attempt
     * on each instance for the query.
     */
    method Search(upstream: string -> Attempt<seq<Option<SearchResult>>>, now: int, limit: int := DefaultLimit)
      returns (tracks: seq<Track>)
      requires Valid()
      modifies this
      ensures Valid()
      ensures var res := SearchTracks(instances, old(State()), now, upstream, limit);
              tracks == res.tracks && State() == res.registry
      ensures cache == old(cache)
    {
      SearchKeepsHealthy(instances, State(), now, upstream, limit);
      var ranked := GetSortedInstances(now);
      if ranked == [] {
        return [];
      }
      ghost var outcome := SearchOutcomes(upstream, limit);
      ghost var checked := State();
      var i := 0;
      while i < |ranked|
        invariant 0 <= i <= |ranked|
        invariant Dispatch(State(), ranked[i..], outcome) == Dispatch(checked, ranked, outcome)
        invariant cache == old(cache)
      {
        var x := ranked[i];
        var attempt := upstream(x);
        var verdict := SearchVerdict(attempt.reply, limit);
        ghost var before := State();
        assert outcome(x) == Outcome(verdict, attempt.responseTime, attempt.at);
        if verdict.Accepted? {
          DispatchStops(before, ranked, i, outcome);
          UpdateMetrics(x, true, attempt.responseTime, attempt.at);
          RecordSuccess(x);
          assert State() == Recorded(before, x, outcome(x));
          return verdict.value;
        }
        DispatchGoesOn(before, ranked, i, outcome);
        if verdict.AcceptedThenFaulted? {
          UpdateMetrics(x, true, attempt.responseTime, attempt.at);
          RecordSuccess(x);
        }
        UpdateMetrics(x, false, attempt.responseTime, attempt.at);
        RecordFailure(x, attempt.at);
        assert State() == Recorded(before, x, outcome(x));
        i := i + 1;
      }
      return [];
    }
  }
}
