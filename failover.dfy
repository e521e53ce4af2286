/**
 * The failover loop shared by `GetStreamUrlAsync` and `SearchAsync`: try the
 * ranked instances in order, record every attempt in the metrics and the
 * breaker of the instance tried, and stop at the first attempt whose
 * response was accepted.
 *
 * What an attempt's response means (accepted or not) is decided by the
 * caller, in responses.dfy; this module is generic in the accepted value.
 */
module Failover {
  import opened Common
  import opened CircuitBreaker
  import opened InstanceMetrics

  /**
   * How one attempt ends.
   * `Rejected`: any failure path (error status, empty or unusable body, a
   * timeout or another exception); `UpdateMetrics(false)` and `RecordFailure`.
   * `Accepted`: `UpdateMetrics(true)` and `RecordSuccess`, and the loop returns.
   * `AcceptedThenFaulted`: success was recorded, then building the result
   * threw, so the catch block also recorded a failure and the loop went on.
   */
  datatype Verdict<R> = Rejected | Accepted(value: R) | AcceptedThenFaulted

  /** The verdict of an attempt with its measured response time and the clock when it was recorded. */
  datatype Outcome<R> = Outcome(verdict: Verdict<R>, responseTime: real, at: int)

  /** The two dictionaries the loop writes: `_metrics` and `_circuitBreakers`. */
  datatype Registry = Registry(metrics: MetricsTable, breakers: Breakers)

  /** `UpdateMetrics(x, false, t)` followed by `RecordFailure(x)`. */
  function Fail(reg: Registry, x: string, responseTime: real, at: int): Registry {
    Registry(Update(reg.metrics, x, false, responseTime, at), RecordFailure(reg.breakers, x, at))
  }

  /** `UpdateMetrics(x, true, t)` followed by `RecordSuccess(x)`. */
  function Succeed(reg: Registry, x: string, responseTime: real, at: int): Registry {
    Registry(Update(reg.metrics, x, true, responseTime, at), RecordSuccess(reg.breakers, x))
  }

  /** What one attempt on `x` records. */
  function Recorded<R>(reg: Registry, x: string, o: Outcome<R>): Registry {
    match o.verdict
    case Rejected => Fail(reg, x, o.responseTime, o.at)
    case Accepted(_) => Succeed(reg, x, o.responseTime, o.at)
    case AcceptedThenFaulted => Fail(Succeed(reg, x, o.responseTime, o.at), x, o.responseTime, o.at)
  }

  /** The instance that answered, what it answered and when. */
  datatype Win<R> = Win(instance: string, value: R, at: int)

  datatype Dispatched<R> = Dispatched(registry: Registry, winner: Option<Win<R>>)

  /** The loop over `ranked`, each attempt ending as `outcome` says. */
  function Dispatch<R>(reg: Registry, ranked: seq<string>, outcome: string -> Outcome<R>): Dispatched<R>
    decreases |ranked|
  {
    if ranked == [] then Dispatched(reg, None)
    else
      var x := ranked[0];
      var o := outcome(x);
      var next := Recorded(reg, x, o);
      if o.verdict.Accepted? then Dispatched(next, Some(Win(x, o.verdict.value, o.at)))
      else Dispatch(next, ranked[1..], outcome)
  }

  /** One turn of the loop at position `i` that does not return. */
  lemma DispatchGoesOn<R>(reg: Registry, ranked: seq<string>, i: int, outcome: string -> Outcome<R>)
    requires 0 <= i < |ranked| && !outcome(ranked[i]).verdict.Accepted?
    ensures Dispatch(reg, ranked[i..], outcome)
         == Dispatch(Recorded(reg, ranked[i], outcome(ranked[i])), ranked[i + 1..], outcome)
  {
    assert ranked[i..][1..] == ranked[i + 1..];
  }

  /** The turn of the loop at position `i` that returns. */
  lemma DispatchStops<R>(reg: Registry, ranked: seq<string>, i: int, outcome: string -> Outcome<R>)
    requires 0 <= i < |ranked| && outcome(ranked[i]).verdict.Accepted?
    ensures Dispatch(reg, ranked[i..], outcome)
         == Dispatched(Recorded(reg, ranked[i], outcome(ranked[i])),
                       Some(Win(ranked[i], outcome(ranked[i]).verdict.value, outcome(ranked[i]).at)))
  {
  }

  /** The position of the first accepted attempt, or `|ranked|` when no attempt is accepted. */
  function FirstAccepted<R>(ranked: seq<string>, outcome: string -> Outcome<R>): (k: nat)
    ensures k <= |ranked|
    ensures forall j :: 0 <= j < k ==> !outcome(ranked[j]).verdict.Accepted?
    ensures k < |ranked| ==> outcome(ranked[k]).verdict.Accepted?
    decreases |ranked|
  {
    if ranked == [] || outcome(ranked[0]).verdict.Accepted? then 0
    else 1 + FirstAccepted(ranked[1..], outcome)
  }

  /** The instances the loop actually tries, in order: everything up to and including the winner. */
  function Attempted<R>(ranked: seq<string>, outcome: string -> Outcome<R>): (r: seq<string>)
    ensures r == if FirstAccepted(ranked, outcome) < |ranked| then ranked[..FirstAccepted(ranked, outcome) + 1] else ranked
    decreases |ranked|
  {
    if ranked == [] then []
    else if outcome(ranked[0]).verdict.Accepted? then [ranked[0]]
    else [ranked[0]] + Attempted(ranked[1..], outcome)
  }

  /** `a` and `b` hold the same entries (or the same absence) for `x` in both dictionaries. */
  ghost predicate SameAt(a: Registry, b: Registry, x: string) {
    (x in a.metrics <==> x in b.metrics) && (x in a.metrics ==> a.metrics[x] == b.metrics[x]) &&
    (x in a.breakers <==> x in b.breakers) && (x in a.breakers ==> a.breakers[x] == b.breakers[x])
  }

  /** The metrics and the breaker invariants the service keeps. */
  ghost predicate Healthy(reg: Registry) {
    Consistent(reg.metrics) && WellFormed(reg.breakers)
  }

  /**
   * The loop returns the first accepted answer with the instance that gave
   * it; it returns nothing exactly when no attempt is accepted.
   */
  lemma {:induction false} DispatchWinner<R>(reg: Registry, ranked: seq<string>, outcome: string -> Outcome<R>)
    ensures var d, k := Dispatch(reg, ranked, outcome), FirstAccepted(ranked, outcome);
            (d.winner.Some? <==> k < |ranked|) &&
            (k < |ranked| ==>
               d.winner.value == Win(ranked[k], outcome(ranked[k]).verdict.value, outcome(ranked[k]).at))
    decreases |ranked|
  {
    if ranked != [] && !outcome(ranked[0]).verdict.Accepted? {
      DispatchWinner(Recorded(reg, ranked[0], outcome(ranked[0])), ranked[1..], outcome);
    }
  }

  /** Recording an attempt on `x` touches only the entries of `x`. */
  lemma RecordedIsLocal<R>(reg: Registry, x: string, o: Outcome<R>, y: string)
    requires y != x
    ensures SameAt(Recorded(reg, x, o), reg, y)
  {
  }

  /** What an attempt records on `x` depends only on the entries of `x`. */
  lemma RecordedDependsOnlyOnOwnEntries<R>(a: Registry, b: Registry, x: string, o: Outcome<R>)
    requires SameAt(a, b, x)
    ensures SameAt(Recorded(a, x, o), Recorded(b, x, o), x)
  {
    assert InstanceMetrics.Lookup(a.metrics, x) == InstanceMetrics.Lookup(b.metrics, x);
    assert CircuitBreaker.Lookup(a.breakers, x) == CircuitBreaker.Lookup(b.breakers, x);
  }

  /**
   * Over a list without repeats, every instance the loop tries ends up exactly
   * as if its own attempt had been recorded alone, and every instance it does
   * not try (those after the winner and those not ranked) is untouched.
   */
  lemma {:induction false} DispatchIsLocal<R>(reg: Registry, ranked: seq<string>, outcome: string -> Outcome<R>, x: string)
    requires Distinct(ranked)
    ensures x in Attempted(ranked, outcome) ==>
              SameAt(Dispatch(reg, ranked, outcome).registry, Recorded(reg, x, outcome(x)), x)
    ensures x !in Attempted(ranked, outcome) ==> SameAt(Dispatch(reg, ranked, outcome).registry, reg, x)
    decreases |ranked|
  {
    if ranked != [] {
      var y, rest := ranked[0], ranked[1..];
      var next := Recorded(reg, y, outcome(y));
      if x != y {
        RecordedIsLocal(reg, y, outcome(y), x);
      }
      if !outcome(y).verdict.Accepted? {
        assert Distinct(rest);
        DispatchIsLocal(next, rest, outcome, x);
        if x == y {
          assert y !in rest;
          AttemptedWithin(rest, outcome, y);
        } else if x in Attempted(rest, outcome) {
          RecordedDependsOnlyOnOwnEntries(next, reg, x, outcome(x));
        }
      }
    }
  }

  /** Only ranked instances are attempted. */
  lemma AttemptedWithin<R>(ranked: seq<string>, outcome: string -> Outcome<R>, x: string)
    requires x !in ranked
    ensures x !in Attempted(ranked, outcome)
  {
  }

  /**
   * What one attempt does to the counters of `x`: a rejected attempt counts
   * one failed request and one more consecutive failure; an accepted one counts
   * one successful request and clears the failure count of an existing breaker;
   * a faulted acceptance counts two requests, one of each, and leaves the
   * failure count at exactly one, so it never changes whether the breaker is open.
   */
  lemma RecordedCounts<R>(reg: Registry, x: string, o: Outcome<R>)
    ensures var m, m' := InstanceMetrics.Lookup(reg.metrics, x), Recorded(reg, x, o).metrics[x];
            var b, r := CircuitBreaker.Lookup(reg.breakers, x), Recorded(reg, x, o).breakers;
            match o.verdict
            case Rejected =>
              m'.totalRequests == m.totalRequests + 1 && m'.failedRequests == m.failedRequests + 1 &&
              m'.successfulRequests == m.successfulRequests &&
              x in r && r[x].consecutiveFailures == b.consecutiveFailures + 1
            case Accepted(_) =>
              m'.totalRequests == m.totalRequests + 1 && m'.successfulRequests == m.successfulRequests + 1 &&
              m'.failedRequests == m.failedRequests &&
              (x in r <==> x in reg.breakers) && (x in r ==> r[x].consecutiveFailures == 0)
            case AcceptedThenFaulted =>
              m'.totalRequests == m.totalRequests + 2 && m'.successfulRequests == m.successfulRequests + 1 &&
              m'.failedRequests == m.failedRequests + 1 &&
              x in r && r[x].consecutiveFailures == 1 && r[x].isOpen == b.isOpen
  {
    if o.verdict.AcceptedThenFaulted? {
      var s := Succeed(reg, x, o.responseTime, o.at);
      assert InstanceMetrics.Lookup(s.metrics, x) == s.metrics[x];
      assert CircuitBreaker.Lookup(s.breakers, x).consecutiveFailures == 0;
    }
  }

  /** One attempt on an instance whose breaker is closed keeps the registry healthy. */
  lemma RecordedKeepsHealthy<R>(reg: Registry, x: string, o: Outcome<R>)
    requires Healthy(reg) && Closed(reg.breakers, x)
    ensures Healthy(Recorded(reg, x, o))
  {
    var s := Succeed(reg, x, o.responseTime, o.at);
    UpdateKeepsConsistent(reg.metrics, x, true, o.responseTime, o.at);
    UpdateKeepsConsistent(reg.metrics, x, false, o.responseTime, o.at);
    UpdateKeepsConsistent(s.metrics, x, false, o.responseTime, o.at);
    RecordingKeepsWellFormed(reg.breakers, x, o.at);
    RecordingKeepsWellFormed(s.breakers, x, o.at);
  }

  /**
   * The loop keeps the registry healthy when it tries each instance at most
   * once and every instance it may try has a closed breaker (which the
   * availability filter guarantees).
   */
  lemma {:induction false} DispatchKeepsHealthy<R>(reg: Registry, ranked: seq<string>, outcome: string -> Outcome<R>)
    requires Healthy(reg) && Distinct(ranked)
    requires forall x :: x in ranked ==> Closed(reg.breakers, x)
    ensures Healthy(Dispatch(reg, ranked, outcome).registry)
    decreases |ranked|
  {
    if ranked != [] {
      var y := ranked[0];
      var next := Recorded(reg, y, outcome(y));
      RecordedKeepsHealthy(reg, y, outcome(y));
      if !outcome(y).verdict.Accepted? {
        var rest := ranked[1..];
        assert Distinct(rest);
        forall x | x in rest ensures Closed(next.breakers, x) {
          assert x in ranked && x != y;
          RecordedIsLocal(reg, y, outcome(y), x);
        }
        DispatchKeepsHealthy(next, rest, outcome);
      }
    }
  }
}
