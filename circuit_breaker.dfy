/**
 * The circuit-breaker registry: one `CircuitBreakerState` per backend
 * instance, held in the `_circuitBreakers` dictionary and read and written by
 * `IsInstanceAvailable`, `RecordFailure` and `RecordSuccess`.
 *
 * The functions here are the dictionary transitions; the class in
 * invidious_service.dfy performs them in place.
 */
module CircuitBreaker {
  import opened Common

  /** The breaker opens on this many consecutive failures. */
  const FailureThreshold: nat := 3

  /** An open breaker re-admits its instance once 5 minutes (in milliseconds) have elapsed. */
  const ResetWindowMs: int := 5 * 60 * 1000

  /** One `CircuitBreakerState` record. */
  datatype Breaker = Breaker(isOpen: bool, openedAt: int, consecutiveFailures: nat)

  /** The record `new CircuitBreakerState()` creates: closed, no failures. */
  const Fresh: Breaker := Breaker(false, MinTime, 0)

  type Breakers = map<string, Breaker>

  /** The breaker of `x`; a missing entry behaves as a fresh one. */
  function Lookup(bs: Breakers, x: string): Breaker {
    if x in bs then bs[x] else Fresh
  }

  /** No entry, or an entry whose breaker is not open. */
  predicate Closed(bs: Breakers, x: string) {
    x !in bs || !bs[x].isOpen
  }

  /** An open breaker whose 5-minute window has run out at `now`. */
  predicate Expired(b: Breaker, now: int) {
    b.isOpen && now - b.openedAt >= ResetWindowMs
  }

  /** The breaker after the lazy re-admission: closed, failure count cleared. */
  function Readmitted(b: Breaker): Breaker {
    b.(isOpen := false, consecutiveFailures := 0)
  }

  /** The answer of `IsInstanceAvailable(x)` at clock `now`. */
  predicate Available(bs: Breakers, x: string, now: int) {
    x !in bs || !bs[x].isOpen || now - bs[x].openedAt >= ResetWindowMs
  }

  /** The side effect of one `IsInstanceAvailable(x)` call at clock `now`. */
  function CheckOne(bs: Breakers, x: string, now: int): Breakers {
    if x in bs && Expired(bs[x], now) then bs[x := Readmitted(bs[x])] else bs
  }

  /** The side effects of asking `IsInstanceAvailable` about each of `xs`, in order. */
  function CheckAll(bs: Breakers, xs: seq<string>, now: int): Breakers
    decreases |xs|
  {
    if xs == [] then bs
    else CheckOne(CheckAll(bs, xs[..|xs| - 1], now), xs[|xs| - 1], now)
  }

  /**
   * `RecordFailure(x)`: creates a fresh entry when there is none, adds exactly
   * one to the failure count, and opens the breaker at `now` once the count
   * reaches the threshold; below it the open flag and opening time stay.
   * No other instance's entry changes.
   */
  function RecordFailure(bs: Breakers, x: string, now: int): (r: Breakers)
    ensures r.Keys == bs.Keys + {x}
    ensures forall y :: y in bs && y != x ==> r[y] == bs[y]
    ensures r[x].consecutiveFailures == Lookup(bs, x).consecutiveFailures + 1
    ensures r[x].consecutiveFailures >= FailureThreshold ==> r[x].isOpen && r[x].openedAt == now
    ensures r[x].consecutiveFailures < FailureThreshold ==>
              r[x].isOpen == Lookup(bs, x).isOpen && r[x].openedAt == Lookup(bs, x).openedAt
  {
    var b := Lookup(bs, x);
    var failures := b.consecutiveFailures + 1;
    if failures >= FailureThreshold then bs[x := Breaker(true, now, failures)]
    else bs[x := b.(consecutiveFailures := failures)]
  }

  /**
   * `RecordSuccess(x)`: clears the failure count of an existing entry; it never
   * creates an entry and never touches the open flag or the opening time.
   * No other instance's entry changes.
   */
  function RecordSuccess(bs: Breakers, x: string): (r: Breakers)
    ensures r.Keys == bs.Keys
    ensures forall y :: y in bs && y != x ==> r[y] == bs[y]
    ensures x in bs ==> r[x].consecutiveFailures == 0
    ensures x in bs ==> r[x].isOpen == bs[x].isOpen && r[x].openedAt == bs[x].openedAt
  {
    if x in bs then bs[x := bs[x].(consecutiveFailures := 0)] else bs
  }

  /**
   * The invariant the failover loop keeps: a breaker is open exactly when its
   * count stands at the threshold, and the count never passes the threshold
   * (an open instance is never attempted, so it never records a failure).
   */
  ghost predicate WellFormed(bs: Breakers) {
    forall x :: x in bs ==>
      bs[x].consecutiveFailures <= FailureThreshold &&
      (bs[x].isOpen <==> bs[x].consecutiveFailures == FailureThreshold)
  }

  /** The three cases of `IsInstanceAvailable`. */
  lemma AvailabilityCases(bs: Breakers, x: string, now: int)
    ensures Closed(bs, x) ==> Available(bs, x, now) && CheckOne(bs, x, now) == bs
    ensures !Closed(bs, x) && now - bs[x].openedAt < ResetWindowMs ==>
              !Available(bs, x, now) && CheckOne(bs, x, now) == bs
    ensures !Closed(bs, x) && now - bs[x].openedAt >= ResetWindowMs ==>
              Available(bs, x, now) &&
              CheckOne(bs, x, now) == bs[x := Breaker(false, bs[x].openedAt, 0)]
  {
  }

  /**
   * Checking a list of instances resets exactly the listed entries whose
   * window has run out, and leaves every other entry and the key set as they were.
   */
  lemma {:induction false} CheckAllAt(bs: Breakers, xs: seq<string>, now: int, x: string)
    ensures CheckAll(bs, xs, now).Keys == bs.Keys
    ensures x in bs ==>
              CheckAll(bs, xs, now)[x] == if x in xs && Expired(bs[x], now) then Readmitted(bs[x]) else bs[x]
    decreases |xs|
  {
    if xs != [] {
      var init, last := xs[..|xs| - 1], xs[|xs| - 1];
      assert xs == init + [last];
      CheckAllAt(bs, init, now, x);
    }
  }

  /** Earlier availability checks never change the answer of a later one. */
  lemma CheckAllKeepsAvailability(bs: Breakers, xs: seq<string>, now: int, x: string)
    ensures Available(CheckAll(bs, xs, now), x, now) == Available(bs, x, now)
  {
    CheckAllAt(bs, xs, now, x);
  }

  /** Every checked instance that was available is closed afterwards. */
  lemma CheckedAvailableIsClosed(bs: Breakers, xs: seq<string>, now: int, x: string)
    requires x in xs && Available(bs, x, now)
    ensures Closed(CheckAll(bs, xs, now), x)
  {
    CheckAllAt(bs, xs, now, x);
  }

  /** Availability checks keep the breaker invariant. */
  lemma CheckAllKeepsWellFormed(bs: Breakers, xs: seq<string>, now: int)
    requires WellFormed(bs)
    ensures WellFormed(CheckAll(bs, xs, now))
  {
    var r := CheckAll(bs, xs, now);
    forall x | x in r
      ensures r[x].consecutiveFailures <= FailureThreshold
      ensures r[x].isOpen <==> r[x].consecutiveFailures == FailureThreshold
    {
      CheckAllAt(bs, xs, now, x);
    }
  }

  /** A failure or a success recorded on a closed breaker keeps the invariant. */
  lemma RecordingKeepsWellFormed(bs: Breakers, x: string, now: int)
    requires WellFormed(bs) && Closed(bs, x)
    ensures WellFormed(RecordFailure(bs, x, now))
    ensures WellFormed(RecordSuccess(bs, x)) && Closed(RecordSuccess(bs, x), x)
  {
  }

  /**
   * A breaker with no failures recorded stays available through two failures,
   * is unavailable after the third, and becomes available again exactly when
   * 5 minutes have passed since that third failure.
   */
  lemma ThirdFailureOpens(bs: Breakers, x: string, t1: int, t2: int, t3: int, now: int)
    requires Closed(bs, x) && Lookup(bs, x).consecutiveFailures == 0
    ensures var b1 := RecordFailure(bs, x, t1);
            var b2 := RecordFailure(b1, x, t2);
            var b3 := RecordFailure(b2, x, t3);
            Available(b1, x, now) && Available(b2, x, now) &&
            (Available(b3, x, now) <==> now - t3 >= ResetWindowMs)
  {
  }

  /**
   * Re-admission is optimistic: the re-admitted instance starts again from
   * zero failures, so a single failure after it does not reopen the breaker.
   */
  lemma ReadmissionRestartsCount(bs: Breakers, x: string, now: int, later: int)
    requires x in bs && Expired(bs[x], now)
    ensures var r := RecordFailure(CheckOne(bs, x, now), x, later);
            r[x].consecutiveFailures == 1 && !r[x].isOpen
  {
  }
}
