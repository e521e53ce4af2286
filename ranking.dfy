/**
 * The instance selector, `GetSortedInstances`: keep the instances whose
 * breaker lets them through, then order them by score, highest first.
 * LINQ's `OrderByDescending` is a stable sort, so instances with equal
 * scores keep the order of the fixed instance list.
 *
 * The sort is stated for any key function; the ranking instantiates it with
 * the health score of the current metrics.
 */
module Ranking {
  import opened Common
  import opened CircuitBreaker
  import opened InstanceMetrics
  import opened HealthScore

  /** The instances of `xs` that `IsInstanceAvailable` lets through, in list order. */
  function AvailableIn(bs: Breakers, xs: seq<string>, now: int): seq<string>
    decreases |xs|
  {
    if xs == [] then []
    else
      var last := xs[|xs| - 1];
      AvailableIn(bs, xs[..|xs| - 1], now) + (if Available(bs, last, now) then [last] else [])
  }

  /**
   * `x` placed into a list sorted by descending key: after every element
   * with a strictly higher key, before the first with the same or a lower one.
   */
  function InsertByKey(key: string -> real, x: string, s: seq<string>): seq<string>
    decreases |s|
  {
    if s == [] || key(s[0]) <= key(x) then [x] + s
    else [s[0]] + InsertByKey(key, x, s[1..])
  }

  /** `OrderByDescending(key)`: a stable sort by descending key. */
  function SortByKey(key: string -> real, xs: seq<string>): seq<string>
    decreases |xs|
  {
    if xs == [] then [] else InsertByKey(key, xs[0], SortByKey(key, xs[1..]))
  }

  /** `CalculateInstanceScore` against the metrics table `ms`. */
  function ScoreIn(ms: MetricsTable): string -> real {
    x => Score(ms, x)
  }

  /** The list `GetSortedInstances` returns. */
  function Rank(bs: Breakers, ms: MetricsTable, xs: seq<string>, now: int): seq<string> {
    SortByKey(ScoreIn(ms), AvailableIn(bs, xs, now))
  }

  /** Keys never increase along `s`. */
  ghost predicate NonIncreasing(key: string -> real, s: seq<string>) {
    forall i, j :: 0 <= i < j < |s| ==> key(s[i]) >= key(s[j])
  }

  /** The elements of `s` whose key is exactly `v`, in the order of `s`. */
  function WithKey(key: string -> real, s: seq<string>, v: real): seq<string>
    decreases |s|
  {
    if s == [] then []
    else (if key(s[0]) == v then [s[0]] else []) + WithKey(key, s[1..], v)
  }

  /** The filter keeps exactly the available instances. */
  lemma {:induction false} AvailableInMembers(bs: Breakers, xs: seq<string>, now: int, x: string)
    ensures x in AvailableIn(bs, xs, now) <==> x in xs && Available(bs, x, now)
    decreases |xs|
  {
    if xs != [] {
      var init := xs[..|xs| - 1];
      assert xs == init + [xs[|xs| - 1]];
      AvailableInMembers(bs, init, now, x);
    }
  }

  /** Filtering a list of distinct instances gives distinct instances. */
  lemma {:induction false} AvailableInDistinct(bs: Breakers, xs: seq<string>, now: int)
    requires Distinct(xs)
    ensures Distinct(AvailableIn(bs, xs, now))
    decreases |xs|
  {
    if xs != [] {
      var init, last := xs[..|xs| - 1], xs[|xs| - 1];
      assert Distinct(init);
      AvailableInDistinct(bs, init, now);
      AvailableInMembers(bs, init, now, last);
      assert last !in init;
    }
  }

  /** Inserting adds exactly one copy of `x`. */
  lemma {:induction false} InsertByKeyAdds(key: string -> real, x: string, s: seq<string>)
    ensures multiset(InsertByKey(key, x, s)) == multiset(s) + multiset{x}
    decreases |s|
  {
    if !(s == [] || key(s[0]) <= key(x)) {
      InsertByKeyAdds(key, x, s[1..]);
      assert s == [s[0]] + s[1..];
    }
  }

  /** Inserting into an ordered list keeps it ordered. */
  lemma {:induction false} InsertByKeyOrders(key: string -> real, x: string, s: seq<string>)
    requires NonIncreasing(key, s)
    ensures NonIncreasing(key, InsertByKey(key, x, s))
    decreases |s|
  {
    var r := InsertByKey(key, x, s);
    if s == [] || key(s[0]) <= key(x) {
      assert r[1..] == s;
      forall i, j | 0 <= i < j < |r| ensures key(r[i]) >= key(r[j]) {
        assert r[j] == s[j - 1];
        if i > 0 { assert r[i] == s[i - 1]; }
      }
    } else {
      var tail := InsertByKey(key, x, s[1..]);
      InsertByKeyOrders(key, x, s[1..]);
      InsertByKeyAdds(key, x, s[1..]);
      assert r[1..] == tail;
      forall j | 0 < j < |r| ensures key(r[0]) >= key(r[j]) {
        assert r[j] == tail[j - 1];
        assert r[j] in multiset(tail);
        if r[j] != x {
          assert r[j] in s[1..];
          var k :| 0 <= k < |s[1..]| && s[1..][k] == r[j];
          assert s[k + 1] == r[j];
        }
      }
      forall i, j | 0 <= i < j < |r| ensures key(r[i]) >= key(r[j]) {
        if i > 0 {
          assert r[i] == tail[i - 1] && r[j] == tail[j - 1];
        }
      }
    }
  }

  /** Inserting puts `x` first among the elements with its key and changes no other key class. */
  lemma {:induction false} InsertByKeyClasses(key: string -> real, x: string, s: seq<string>, v: real)
    ensures WithKey(key, InsertByKey(key, x, s), v) == (if key(x) == v then [x] else []) + WithKey(key, s, v)
    decreases |s|
  {
    var r := InsertByKey(key, x, s);
    if s == [] || key(s[0]) <= key(x) {
      assert r[0] == x && r[1..] == s;
    } else {
      InsertByKeyClasses(key, x, s[1..], v);
      assert r[0] == s[0] && r[1..] == InsertByKey(key, x, s[1..]);
    }
  }

  /** The sort only reorders its input. */
  lemma {:induction false} SortByKeyPermutes(key: string -> real, xs: seq<string>)
    ensures multiset(SortByKey(key, xs)) == multiset(xs)
    decreases |xs|
  {
    if xs != [] {
      SortByKeyPermutes(key, xs[1..]);
      InsertByKeyAdds(key, xs[0], SortByKey(key, xs[1..]));
      assert xs == [xs[0]] + xs[1..];
    }
  }

  /** The sort orders by descending key. */
  lemma {:induction false} SortByKeyOrders(key: string -> real, xs: seq<string>)
    ensures NonIncreasing(key, SortByKey(key, xs))
    decreases |xs|
  {
    if xs != [] {
      SortByKeyOrders(key, xs[1..]);
      InsertByKeyOrders(key, xs[0], SortByKey(key, xs[1..]));
    }
  }

  /** The sort is stable: the elements with any one key keep their input order. */
  lemma {:induction false} SortByKeyStable(key: string -> real, xs: seq<string>, v: real)
    ensures WithKey(key, SortByKey(key, xs), v) == WithKey(key, xs, v)
    decreases |xs|
  {
    if xs != [] {
      SortByKeyStable(key, xs[1..], v);
      InsertByKeyClasses(key, xs[0], SortByKey(key, xs[1..]), v);
    }
  }

  /** Inserting an element not yet present keeps the list free of repeats. */
  lemma {:induction false} InsertByKeyDistinct(key: string -> real, x: string, s: seq<string>)
    requires Distinct(s) && x !in s
    ensures Distinct(InsertByKey(key, x, s))
    decreases |s|
  {
    var r := InsertByKey(key, x, s);
    if s == [] || key(s[0]) <= key(x) {
      assert r[1..] == s;
      forall i, j | 0 <= i < j < |r| ensures r[i] != r[j] {
        assert r[j] == s[j - 1];
        if i > 0 { assert r[i] == s[i - 1]; }
      }
    } else {
      var tail := InsertByKey(key, x, s[1..]);
      assert Distinct(s[1..]);
      InsertByKeyDistinct(key, x, s[1..]);
      InsertByKeyAdds(key, x, s[1..]);
      assert s[0] !in s[1..];
      assert s[0] !in multiset(tail);
      assert r[1..] == tail;
      forall i, j | 0 <= i < j < |r| ensures r[i] != r[j] {
        assert r[j] == tail[j - 1];
        if i > 0 { assert r[i] == tail[i - 1]; }
        else { assert r[j] in multiset(tail); }
      }
    }
  }

  /** The sort keeps distinct elements distinct. */
  lemma {:induction false} SortByKeyDistinct(key: string -> real, xs: seq<string>)
    requires Distinct(xs)
    ensures Distinct(SortByKey(key, xs))
    decreases |xs|
  {
    if xs != [] {
      var rest := SortByKey(key, xs[1..]);
      assert Distinct(xs[1..]);
      SortByKeyDistinct(key, xs[1..]);
      SortByKeyPermutes(key, xs[1..]);
      assert xs[0] !in xs[1..];
      assert xs[0] !in multiset(rest);
      InsertByKeyDistinct(key, xs[0], rest);
    }
  }

  /**
   * What `GetSortedInstances` returns: exactly the instances `IsInstanceAvailable`
   * lets through, each once when the instance list has no repeats, by
   * non-increasing score, with equal scores in instance-list order.
   */
  lemma RankSpec(bs: Breakers, ms: MetricsTable, xs: seq<string>, now: int)
    ensures forall x :: x in Rank(bs, ms, xs, now) <==> x in xs && Available(bs, x, now)
    ensures Distinct(xs) ==> Distinct(Rank(bs, ms, xs, now))
    ensures forall i, j :: 0 <= i < j < |Rank(bs, ms, xs, now)| ==>
              Score(ms, Rank(bs, ms, xs, now)[i]) >= Score(ms, Rank(bs, ms, xs, now)[j])
    ensures forall v :: WithKey(ScoreIn(ms), Rank(bs, ms, xs, now), v) == WithKey(ScoreIn(ms), AvailableIn(bs, xs, now), v)
  {
    var key, avail := ScoreIn(ms), AvailableIn(bs, xs, now);
    var r := Rank(bs, ms, xs, now);
    SortByKeyPermutes(key, avail);
    SortByKeyOrders(key, avail);
    forall x ensures x in r <==> x in xs && Available(bs, x, now) {
      AvailableInMembers(bs, xs, now, x);
      assert x in r <==> x in multiset(avail);
    }
    if Distinct(xs) {
      AvailableInDistinct(bs, xs, now);
      SortByKeyDistinct(key, avail);
    }
    forall i, j | 0 <= i < j < |r| ensures Score(ms, r[i]) >= Score(ms, r[j]) {
      assert key(r[i]) >= key(r[j]);
    }
    forall v ensures WithKey(key, r, v) == WithKey(key, avail, v) {
      SortByKeyStable(key, avail, v);
    }
  }

  /** With every breaker open inside its 5-minute window, nothing is ranked. */
  lemma AllOpenRanksNothing(bs: Breakers, ms: MetricsTable, xs: seq<string>, now: int)
    requires forall x :: x in xs ==> x in bs && bs[x].isOpen && now - bs[x].openedAt < ResetWindowMs
    ensures Rank(bs, ms, xs, now) == []
  {
    RankSpec(bs, ms, xs, now);
    var r := Rank(bs, ms, xs, now);
    forall x ensures x !in multiset(r) {
      assert x in xs ==> !Available(bs, x, now);
    }
    assert multiset(r) == multiset{};
    assert |r| == |multiset(r)|;
  }
}
