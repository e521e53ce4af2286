/**
 * The health scorer: `CalculateInstanceScore`, a pure function of an
 * instance's metrics that the ranking sorts by.
 */
module HealthScore {
  import opened InstanceMetrics

  /** The score of an instance with no recorded requests. */
  const NeutralScore: real := 50.0

  /**
   * 70% success rate (in percent) plus 30% speed, where speed loses one point
   * per 10 ms of average response time and never drops below 0.
   */
  function Score(ms: MetricsTable, x: string): real {
    if x !in ms || ms[x].totalRequests == 0 then NeutralScore
    else
      var m := ms[x];
      var successRate := (m.successfulRequests as real) * 100.0 / (m.totalRequests as real);
      var speed := 100.0 - m.averageResponseTime / 10.0;
      var responseScore := if 0.0 > speed then 0.0 else speed;
      successRate * 0.7 + responseScore * 0.3
  }

  /**
   * An instance without requests scores exactly the neutral 50; any other
   * score lies in [0, 100] as long as successes do not outnumber requests
   * and the average response time is not negative.
   */
  lemma ScoreRange(ms: MetricsTable, x: string)
    ensures x !in ms || ms[x].totalRequests == 0 ==> Score(ms, x) == NeutralScore
    ensures x in ms && ms[x].successfulRequests <= ms[x].totalRequests && ms[x].averageResponseTime >= 0.0 ==>
              0.0 <= Score(ms, x) <= 100.0
  {
    if x in ms && ms[x].totalRequests > 0 && ms[x].successfulRequests <= ms[x].totalRequests {
      var m := ms[x];
      var t, s := m.totalRequests as real, m.successfulRequests as real;
      assert s * 100.0 <= t * 100.0;
      assert 0.0 <= s * 100.0 / t <= 100.0;
    }
  }

  /**
   * Reliability decides first: with the same request count and the same
   * average response time, more successes never score lower.
   */
  lemma MoreSuccessesScoreHigher(ms: MetricsTable, x: string, y: string)
    requires x in ms && y in ms && ms[x].totalRequests == ms[y].totalRequests > 0
    requires ms[x].averageResponseTime == ms[y].averageResponseTime
    requires ms[x].successfulRequests >= ms[y].successfulRequests
    ensures Score(ms, x) >= Score(ms, y)
  {
    var t := ms[x].totalRequests as real;
    var sx, sy := ms[x].successfulRequests as real, ms[y].successfulRequests as real;
    assert sx * 100.0 / t >= sy * 100.0 / t;
  }

  /** With the same success counts, a lower average response time never scores lower. */
  lemma FasterScoresHigher(ms: MetricsTable, x: string, y: string)
    requires x in ms && y in ms && ms[x].totalRequests == ms[y].totalRequests > 0
    requires ms[x].successfulRequests == ms[y].successfulRequests
    requires ms[x].averageResponseTime <= ms[y].averageResponseTime
    ensures Score(ms, x) >= Score(ms, y)
  {
  }
}
