/** Percentiles of a benchmark: the exact nearest-rank percentile of
    `benchmark/internal/stats/stats.go`, the estimate that `HistogramPercentile` of
    `benchmark/internal/metrics/prometheus.go` reads from bucket deltas, and what the
    estimate says about the exact one. */
module Percentiles {
  import opened Collections
  import opened Sorting

  function Ceil(x: real): int {
    -((-x).Floor)
  }

  /** The one-based nearest rank among `total` observations. */
  function Rank(p: real, total: real): int {
    Ceil(p * total)
  }

  /** The rank is the least integer that is not below `p * total`. */
  lemma RankIsLeast(p: real, total: real, k: int)
    ensures k as real >= p * total <==> k >= Rank(p, total)
  {
    var x := p * total;
    assert Rank(p, total) == -((-x).Floor);
    assert (-x).Floor as real <= -x < ((-x).Floor + 1) as real;
  }

  /** The upper bound of a bucket. */
  datatype Bound = Finite(value: real) | Infinite

  predicate AtMost(a: Bound, b: Bound) {
    b.Infinite? || (a.Finite? && a.value <= b.value)
  }

  function Within(b: Bound): real -> int {
    (x: real) => if AtMost(Finite(x), b) then 1 else 0
  }

  /** How many observations a cumulative bucket with upper bound `b` counts. */
  function CountUpTo(values: seq<real>, b: Bound): int {
    Total(values, Within(b))
  }

  // ---------------------------------------------------------------- nearest rank

  /** `v` is the observation of rank `ceil(p * n)`: a bound covers that many observations
      exactly if it is not below `v`. */
  ghost predicate NearestRank(values: seq<real>, p: real, v: real) {
    v in values && forall b: Bound :: CountUpTo(values, b) >= Rank(p, |values| as real) <==> AtMost(Finite(v), b)
  }

  function Ascending(): (real, real) -> bool {
    (x: real, y: real) => x <= y
  }

  lemma RankInRange(p: real, n: nat)
    requires 0.0 < p <= 1.0 && n > 0
    ensures 1 <= Rank(p, n as real) <= n
  {
    assert 0.0 < p * n as real <= n as real;
  }

  lemma CountOfPermutation(s: seq<real>, t: seq<real>, b: Bound)
    requires multiset(s) == multiset(t)
    ensures CountUpTo(s, b) == CountUpTo(t, b)
  {
    TotalOfPermutation(s, t, Within(b));
  }

  lemma {:induction false} CountAll(s: seq<real>, b: Bound)
    requires forall i :: 0 <= i < |s| ==> AtMost(Finite(s[i]), b)
    ensures CountUpTo(s, b) == |s|
  {
    if s != [] {
      CountAll(s[..|s| - 1], b);
    }
  }

  lemma CountSplit(s: seq<real>, k: nat, b: Bound)
    requires k <= |s|
    ensures CountUpTo(s, b) == CountUpTo(s[..k], b) + CountUpTo(s[k..], b)
  {
    assert s == s[..k] + s[k..];
    TotalConcat(s[..k], s[k..], Within(b));
  }

  lemma {:induction false} CountBounds(s: seq<real>, b: Bound)
    ensures 0 <= CountUpTo(s, b) <= |s|
  {
    if s != [] {
      CountBounds(s[..|s| - 1], b);
    }
  }

  /** In an ascending sequence a bound covers `rank` elements exactly if it covers the one of that rank. */
  lemma RankCovered(ordered: seq<real>, rank: nat, b: Bound)
    requires Ordered(ordered, Ascending()) && 1 <= rank <= |ordered|
    ensures CountUpTo(ordered, b) >= rank <==> AtMost(Finite(ordered[rank - 1]), b)
  {
    hide CountUpTo;
    var v := ordered[rank - 1];
    if AtMost(Finite(v), b) {
      CountSplit(ordered, rank, b);
      CountAll(ordered[..rank], b);
      CountBounds(ordered[rank..], b);
    } else {
      CountSplit(ordered, rank - 1, b);
      CountBounds(ordered[..rank - 1], b);
      CountNone(ordered[rank - 1..], b);
    }
  }

  lemma CountNone(s: seq<real>, b: Bound)
    requires forall i :: 0 <= i < |s| ==> !AtMost(Finite(s[i]), b)
    ensures CountUpTo(s, b) == 0
  {
    TotalZero(s, Within(b));
  }

  /** `Percentile`: the observation at the nearest rank of the sorted copy. */
  method Percentile(values: seq<real>, p: real) returns (r: Option<real>)
    ensures r.Some? <==> values != [] && 0.0 < p <= 1.0
    ensures r.Some? ==> NearestRank(values, p, r.value)
  {
    hide Sorted, Ordered, Rank, AtMost, CountUpTo;
    if |values| == 0 || p <= 0.0 || p > 1.0 {
      return None;
    }
    var ordered := Sorted(values, Ascending());
    SortedIs(values, Ascending());
    var rank := Rank(p, |ordered| as real);
    RankInRange(p, |ordered|);
    NearestIs(values, ordered, rank);
    return Some(ordered[rank - 1]);
  }

  lemma NearestIs(values: seq<real>, ordered: seq<real>, rank: nat)
    requires Ordered(ordered, Ascending()) && multiset(ordered) == multiset(values)
    requires 1 <= rank <= |ordered|
    ensures ordered[rank - 1] in values
    ensures forall b: Bound :: CountUpTo(values, b) >= rank <==> AtMost(Finite(ordered[rank - 1]), b)
  {
    hide CountUpTo, Ordered;
    assert ordered[rank - 1] in multiset(ordered);
    forall b: Bound ensures CountUpTo(values, b) >= rank <==> AtMost(Finite(ordered[rank - 1]), b) {
      RankCovered(ordered, rank, b);
      CountOfPermutation(values, ordered, b);
    }
  }

  /** The positions of the observations that are at most `x`. */
  function PositionsUpTo(values: seq<real>, x: real): set<int> {
    set i | 0 <= i < |values| && values[i] <= x
  }

  lemma {:induction false} CountIsCardinality(values: seq<real>, x: real)
    ensures CountUpTo(values, Finite(x)) == |PositionsUpTo(values, x)|
  {
    if values != [] {
      var n := |values| - 1;
      CountIsCardinality(values[..n], x);
      assert PositionsUpTo(values, x) == PositionsUpTo(values[..n], x) + if values[n] <= x then {n} else {};
    }
  }

  /** At least the fraction `p` of all observations is not above `x`. */
  predicate Reaches(values: seq<real>, p: real, x: real) {
    |PositionsUpTo(values, x)| as real >= p * |values| as real
  }

  lemma ReachesRank(values: seq<real>, p: real, x: real)
    ensures Reaches(values, p, x) <==> CountUpTo(values, Finite(x)) >= Rank(p, |values| as real)
  {
    hide CountUpTo, Rank;
    CountIsCardinality(values, x);
    RankIsLeast(p, |values| as real, |PositionsUpTo(values, x)|);
  }

  /** The nearest-rank percentile in plain terms: the least observation such that at least the
      fraction `p` of all observations is not above it. */
  lemma NearestRankExact(values: seq<real>, p: real, v: real)
    requires values != [] && 0.0 < p <= 1.0
    ensures NearestRank(values, p, v) <==>
      v in values && Reaches(values, p, v) && forall x :: x < v ==> !Reaches(values, p, x)
  {
    hide CountUpTo, Rank, Reaches;
    forall x: real ensures Reaches(values, p, x) <==> CountUpTo(values, Finite(x)) >= Rank(p, |values| as real) {
      ReachesRank(values, p, x);
    }
    if v in values && Reaches(values, p, v) && forall x :: x < v ==> !Reaches(values, p, x) {
      forall b: Bound ensures CountUpTo(values, b) >= Rank(p, |values| as real) <==> AtMost(Finite(v), b) {
        CoversFrom(values, p, v, b);
      }
    }
    if NearestRank(values, p, v) {
      assert AtMost(Finite(v), Finite(v));
      forall x | x < v ensures !Reaches(values, p, x) {
        assert !AtMost(Finite(v), Finite(x));
      }
    }
  }

  lemma CoversFrom(values: seq<real>, p: real, v: real, b: Bound)
    requires values != [] && 0.0 < p <= 1.0
    requires Reaches(values, p, v) && forall x :: x < v ==> !Reaches(values, p, x)
    ensures CountUpTo(values, b) >= Rank(p, |values| as real) <==> AtMost(Finite(v), b)
  {
    hide CountUpTo, Rank, Reaches;
    if b.Finite? {
      ReachesRank(values, p, v);
      ReachesRank(values, p, b.value);
      if v <= b.value {
        CountGrows(values, v, b.value);
      }
    } else {
      CountAll(values, Infinite);
      RankInRange(p, |values|);
    }
  }

  lemma CountGrows(values: seq<real>, x: real, y: real)
    requires x <= y
    ensures CountUpTo(values, Finite(x)) <= CountUpTo(values, Finite(y))
  {
    CountIsCardinality(values, x);
    CountIsCardinality(values, y);
    Subset(PositionsUpTo(values, x), PositionsUpTo(values, y));
  }

  lemma Subset(a: set<int>, b: set<int>)
    requires a <= b
    ensures |a| <= |b|
  {
    assert b == a + (b - a);
  }

  // ---------------------------------------------------------------- the estimate from buckets

  /** The largest finite bound, or zero if there is none. */
  ghost predicate LastFinite(bounds: set<Bound>, v: real) {
    if exists b :: b in bounds && b.Finite?
    then Finite(v) in bounds && forall b :: b in bounds && b.Finite? ==> b.value <= v
    else v == 0.0
  }

  ghost predicate Highest(deltas: map<Bound, real>, top: Bound) {
    top in deltas && forall b :: b in deltas ==> AtMost(b, top)
  }

  /** `b` is the least bound whose cumulative delta reaches the rank. */
  ghost predicate FirstReaching(deltas: map<Bound, real>, rank: int, b: Bound) {
    && b in deltas && deltas[b] >= rank as real
    && forall a :: a in deltas && deltas[a] >= rank as real ==> AtMost(b, a)
  }

  /** What the estimate is, by bound, for cumulative deltas per bound. */
  ghost predicate Estimate(deltas: map<Bound, real>, p: real, r: Option<real>) {
    if deltas == map[] then r.None?
    else exists top :: Highest(deltas, top) && EstimateBelow(deltas, deltas[top], p, r)
  }

  ghost predicate EstimateBelow(deltas: map<Bound, real>, total: real, p: real, r: Option<real>) {
    if total <= 0.0 then r.None? else
    var rank := Rank(p, total);
    match r
    case None => forall b :: b in deltas ==> deltas[b] < rank as real
    case Some(v) =>
      || (Finite(v) in deltas && FirstReaching(deltas, rank, Finite(v)))
      || (FirstReaching(deltas, rank, Infinite) && LastFinite(deltas.Keys, v))
  }

  datatype Bucket = Bucket(upper: Bound, count: real)

  function ByUpper(): (Bucket, Bucket) -> bool {
    (x: Bucket, y: Bucket) => AtMost(x.upper, y.upper)
  }

  ghost predicate Represents(buckets: seq<Bucket>, deltas: map<Bound, real>) {
    && (forall i :: 0 <= i < |buckets| ==> buckets[i].upper in deltas && deltas[buckets[i].upper] == buckets[i].count)
    && (forall b :: b in deltas ==> exists i :: 0 <= i < |buckets| && buckets[i].upper == b)
  }

  lemma ByUpperIsTotal()
    ensures TotalOrder(ByUpper())
  {
  }

  lemma SortingRepresents(buckets: seq<Bucket>, deltas: map<Bound, real>)
    requires Represents(buckets, deltas)
    ensures Represents(Sorted(buckets, ByUpper()), deltas) && Ordered(Sorted(buckets, ByUpper()), ByUpper())
  {
    hide Sorted, AtMost;
    var sorted := Sorted(buckets, ByUpper());
    ByUpperIsTotal();
    SortedIs(buckets, ByUpper());
    forall i | 0 <= i < |sorted| ensures sorted[i] in buckets {
      assert sorted[i] in multiset(sorted);
    }
    forall b | b in deltas ensures exists i :: 0 <= i < |sorted| && sorted[i].upper == b {
      var i :| 0 <= i < |buckets| && buckets[i].upper == b;
      assert buckets[i] in multiset(buckets);
      var j :| 0 <= j < |sorted| && sorted[j] == buckets[i];
    }
  }

  /** Of the scanned buckets, the last finite bound; zero before the first. */
  ghost predicate LastFiniteAmong(buckets: seq<Bucket>, i: nat, v: real)
    requires i <= |buckets|
  {
    if i == 0 || buckets[0].upper.Infinite? then v == 0.0
    else exists j :: 0 <= j < i && buckets[j].upper == Finite(v) && forall k :: j < k < i ==> buckets[k].upper.Infinite?
  }

  lemma LastFiniteStep(buckets: seq<Bucket>, i: nat, v: real)
    requires i < |buckets| && Ordered(buckets, ByUpper()) && LastFiniteAmong(buckets, i, v)
    ensures LastFiniteAmong(buckets, i + 1, if buckets[i].upper.Finite? then buckets[i].upper.value else v)
  {
    if i > 0 && buckets[0].upper.Infinite? {
      assert ByUpper()(buckets[0], buckets[i]);
    }
  }

  lemma OrderedAt(buckets: seq<Bucket>, i: nat, j: nat)
    requires Ordered(buckets, ByUpper()) && i < |buckets| && j < |buckets|
    ensures i <= j ==> AtMost(buckets[i].upper, buckets[j].upper)
  {
    assert i < j ==> ByUpper()(buckets[i], buckets[j]);
  }

  lemma LastFiniteIs(buckets: seq<Bucket>, deltas: map<Bound, real>, i: nat, v: real)
    requires Ordered(buckets, ByUpper()) && Represents(buckets, deltas)
    requires i < |buckets| && buckets[i].upper.Infinite? && LastFiniteAmong(buckets, i + 1, v)
    ensures LastFinite(deltas.Keys, v)
  {
    forall b | b in deltas && b.Finite? ensures buckets[0].upper.Finite? && b.value <= v {
      var k :| 0 <= k < |buckets| && buckets[k].upper == b;
      OrderedAt(buckets, i, k);
      OrderedAt(buckets, 0, k);
      var j :| 0 <= j < i + 1 && buckets[j].upper == Finite(v) && forall m :: j < m < i + 1 ==> buckets[m].upper.Infinite?;
      OrderedAt(buckets, k, j);
    }
    if buckets[0].upper.Finite? {
      assert buckets[0].upper in deltas;
    }
  }

  lemma FirstReachingIs(buckets: seq<Bucket>, deltas: map<Bound, real>, rank: int, i: nat)
    requires Ordered(buckets, ByUpper()) && Represents(buckets, deltas)
    requires i < |buckets| && buckets[i].count >= rank as real
    requires forall j :: 0 <= j < i ==> buckets[j].count < rank as real
    ensures FirstReaching(deltas, rank, buckets[i].upper) && buckets[i].upper in deltas
  {
    forall b | b in deltas && deltas[b] >= rank as real ensures AtMost(buckets[i].upper, b) {
      var k :| 0 <= k < |buckets| && buckets[k].upper == b;
      assert k == i || ByUpper()(buckets[i], buckets[k]);
    }
  }

  lemma HighestIs(buckets: seq<Bucket>, deltas: map<Bound, real>)
    requires buckets != [] && Ordered(buckets, ByUpper()) && Represents(buckets, deltas)
    ensures Highest(deltas, buckets[|buckets| - 1].upper)
  {
    forall b | b in deltas ensures AtMost(b, buckets[|buckets| - 1].upper) {
      var k :| 0 <= k < |buckets| && buckets[k].upper == b;
      assert k == |buckets| - 1 || ByUpper()(buckets[k], buckets[|buckets| - 1]);
    }
  }

  lemma NoneReaching(buckets: seq<Bucket>, deltas: map<Bound, real>, rank: int)
    requires Represents(buckets, deltas)
    requires forall j :: 0 <= j < |buckets| ==> buckets[j].count < rank as real
    ensures forall b :: b in deltas ==> deltas[b] < rank as real
  {
  }

  /** The scan of the sorted buckets for the first one that reaches the rank. */
  method ScanBuckets(buckets: seq<Bucket>, p: real, ghost deltas: map<Bound, real>) returns (r: Option<real>)
    requires buckets != [] && Ordered(buckets, ByUpper()) && Represents(buckets, deltas)
    ensures Estimate(deltas, p, r)
  {
    hide Rank, Ordered, LastFiniteAmong, LastFinite, FirstReaching;
    var total := buckets[|buckets| - 1].count;
    HighestIs(buckets, deltas);
    if total <= 0.0 {
      return None;
    }
    var rank := Rank(p, total);
    var lastFinite := 0.0;
    NoFiniteYet(buckets);
    for i := 0 to |buckets|
      invariant forall j :: 0 <= j < i ==> buckets[j].count < rank as real
      invariant LastFiniteAmong(buckets, i, lastFinite)
    {
      var item := buckets[i];
      LastFiniteStep(buckets, i, lastFinite);
      if item.upper.Finite? {
        lastFinite := item.upper.value;
      }
      if item.count >= rank as real {
        FirstReachingIs(buckets, deltas, rank, i);
        if item.upper.Infinite? {
          LastFiniteIs(buckets, deltas, i, lastFinite);
          return Some(lastFinite);
        }
        assert item.upper == Finite(item.upper.value);
        return Some(item.upper.value);
      }
    }
    NoneReaching(buckets, deltas, rank);
    return None;
  }

  lemma NoFiniteYet(buckets: seq<Bucket>)
    ensures LastFiniteAmong(buckets, 0, 0.0)
  {
  }
}
