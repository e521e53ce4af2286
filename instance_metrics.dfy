/**
 * The instance metrics store: one `InstanceMetrics` record per backend
 * instance, held in the `_metrics` dictionary and written only by
 * `UpdateMetrics` after every attempt.
 *
 * `double` fields are `real` here: the arithmetic is exact.
 */
module InstanceMetrics {
  import opened Common

  /** One `InstanceMetrics` record; `averageResponseTime` is in milliseconds. */
  datatype Metrics = Metrics(
    totalRequests: nat,
    successfulRequests: nat,
    failedRequests: nat,
    averageResponseTime: real,
    lastUpdated: int)

  /** The record `new InstanceMetrics()` creates. */
  const Fresh: Metrics := Metrics(0, 0, 0, 0.0, MinTime)

  type MetricsTable = map<string, Metrics>

  /** The record of `x`; a missing entry behaves as a fresh one. */
  function Lookup(ms: MetricsTable, x: string): Metrics {
    if x in ms then ms[x] else Fresh
  }

  /**
   * The incremental mean after a `count`-th value `x`, given the mean `avg`
   * of the first `count - 1` values.
   */
  function RunningMean(avg: real, count: nat, x: real): real
    requires count >= 1
  {
    (avg * ((count - 1) as real) + x) / (count as real)
  }

  /**
   * The update `UpdateMetrics` applies to one record: one more request, and
   * one more success or one more failure. A success folds its response time
   * into the running mean (the sum of the successful response times grows by
   * exactly that time); a failure leaves the mean alone.
   */
  function Record(m: Metrics, success: bool, responseTime: real, now: int): (r: Metrics)
    ensures r.totalRequests == m.totalRequests + 1
    ensures r.successfulRequests == m.successfulRequests + (if success then 1 else 0)
    ensures r.failedRequests == m.failedRequests + (if success then 0 else 1)
    ensures !success ==> r.averageResponseTime == m.averageResponseTime
    ensures r.lastUpdated == now
  {
    if success then
      var successes := m.successfulRequests + 1;
      m.(totalRequests := m.totalRequests + 1,
         successfulRequests := successes,
         averageResponseTime := RunningMean(m.averageResponseTime, successes, responseTime),
         lastUpdated := now)
    else
      m.(totalRequests := m.totalRequests + 1,
         failedRequests := m.failedRequests + 1,
         lastUpdated := now)
  }

  /**
   * `UpdateMetrics(x, success, responseTime)`: creates the entry of `x` if it
   * is missing and records the attempt in it; other entries stay as they were.
   */
  function Update(ms: MetricsTable, x: string, success: bool, responseTime: real, now: int): (r: MetricsTable)
    ensures r.Keys == ms.Keys + {x}
    ensures r[x] == Record(Lookup(ms, x), success, responseTime, now)
    ensures forall y :: y in ms && y != x ==> r[y] == ms[y]
  {
    ms[x := Record(Lookup(ms, x), success, responseTime, now)]
  }

  /** Every request is counted either as a success or as a failure. */
  ghost predicate Consistent(ms: MetricsTable) {
    forall x :: x in ms ==> ms[x].successfulRequests + ms[x].failedRequests == ms[x].totalRequests
  }

  /** `UpdateMetrics` keeps the counters consistent. */
  lemma UpdateKeepsConsistent(ms: MetricsTable, x: string, success: bool, responseTime: real, now: int)
    requires Consistent(ms)
    ensures Consistent(Update(ms, x, success, responseTime, now))
  {
  }

  /** With no negative response time recorded, the mean is never negative. */
  lemma RecordKeepsAverageNonNegative(m: Metrics, success: bool, responseTime: real, now: int)
    requires m.averageResponseTime >= 0.0 && responseTime >= 0.0
    ensures Record(m, success, responseTime, now).averageResponseTime >= 0.0
  {
    if success {
      var s := (m.successfulRequests + 1) as real;
      var num := m.averageResponseTime * (m.successfulRequests as real) + responseTime;
      assert num >= 0.0;
      assert Record(m, success, responseTime, now).averageResponseTime == num / s;
    }
  }

  /** One observed attempt: its outcome, its response time and the clock when it was recorded. */
  datatype Sample = Sample(success: bool, responseTime: real, at: int)

  /** The record after a sequence of `UpdateMetrics` calls, oldest first. */
  function Replay(m: Metrics, h: seq<Sample>): Metrics
    decreases |h|
  {
    if h == [] then m
    else
      var s := h[|h| - 1];
      Record(Replay(m, h[..|h| - 1]), s.success, s.responseTime, s.at)
  }

  /** The response times of the successful attempts of `h`, oldest first. */
  function SuccessTimes(h: seq<Sample>): seq<real>
    decreases |h|
  {
    if h == [] then []
    else
      var s := h[|h| - 1];
      SuccessTimes(h[..|h| - 1]) + (if s.success then [s.responseTime] else [])
  }

  function Sum(xs: seq<real>): real
    decreases |xs|
  {
    if xs == [] then 0.0 else Sum(xs[..|xs| - 1]) + xs[|xs| - 1]
  }

  /** The mean of `xs`; 0 for no values, as in a fresh record. */
  function Mean(xs: seq<real>): real {
    if xs == [] then 0.0 else Sum(xs) / (|xs| as real)
  }

  /**
   * Starting from a fresh record, any sequence of updates leaves a record
   * whose counters count the attempts, their successes and their failures,
   * and whose average is the mean of the successful attempts' response times
   * only: failed attempts' times are never folded in.
   */
  lemma {:induction false} ReplayAveragesSuccesses(h: seq<Sample>)
    ensures var r := Replay(Fresh, h);
            r.totalRequests == |h| &&
            r.successfulRequests == |SuccessTimes(h)| &&
            r.failedRequests == |h| - |SuccessTimes(h)| &&
            r.averageResponseTime == Mean(SuccessTimes(h))
    decreases |h|
  {
    if h != [] {
      var init, s := h[..|h| - 1], h[|h| - 1];
      ReplayAveragesSuccesses(init);
      var prev := Replay(Fresh, init);
      var t := SuccessTimes(init);
      assert Replay(Fresh, h) == Record(prev, s.success, s.responseTime, s.at);
      if s.success {
        var t' := t + [s.responseTime];
        assert SuccessTimes(h) == t';
        MeanStep(t, s.responseTime);
      } else {
        assert SuccessTimes(h) == t + [] == t;
      }
    }
  }

  /** Folding `x` into the running mean of `xs` gives the mean of `xs + [x]`. */
  lemma MeanStep(xs: seq<real>, x: real)
    ensures RunningMean(Mean(xs), |xs| + 1, x) == Mean(xs + [x])
  {
    var ys := xs + [x];
    assert ys[..|ys| - 1] == xs;
    var n := |xs| as real;
    if xs != [] {
      var m := Sum(xs) / n;
      assert m * n == Sum(xs);
      assert RunningMean(m, |xs| + 1, x) == (Sum(xs) + x) / (n + 1.0);
    }
  }

  /**
   * The worked example: successes of 100 ms and 300 ms with a failed 5000 ms
   * attempt between them leave an average of 200 ms.
   */
  lemma FailedTimeIgnored(t0: int, t1: int, t2: int)
    ensures Replay(Fresh, [Sample(true, 100.0, t0), Sample(false, 5000.0, t1), Sample(true, 300.0, t2)])
              .averageResponseTime == 200.0
  {
    var a, b, c := Sample(true, 100.0, t0), Sample(false, 5000.0, t1), Sample(true, 300.0, t2);
    var h := [a, b, c];
    assert h[..2] == [a, b];
    assert [a, b][..1] == [a];
    assert [a][..0] == [];
    var r1 := Record(Fresh, true, 100.0, t0);
    assert r1.averageResponseTime == 100.0;
    assert Replay(Fresh, [a]) == r1;
    var r2 := Record(r1, false, 5000.0, t1);
    assert r2.averageResponseTime == 100.0 && r2.successfulRequests == 1;
    assert Replay(Fresh, [a, b]) == r2;
    var r3 := Record(r2, true, 300.0, t2);
    assert r3.averageResponseTime * 2.0 == 400.0;
    assert Replay(Fresh, h) == r3;
  }
}
