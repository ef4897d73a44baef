/** What the bucket estimate says about the exact percentile of the observations. */
module HistogramTheorems {
  import opened Collections
  import opened Prometheus
  import opened Percentiles
  import opened Histograms

  /** The deltas count the observations `values` made between the scrapes, bound by bound,
      and there is the bucket without an upper bound that every histogram has. */
  ghost predicate CountsOf(deltas: map<Bound, real>, values: seq<real>) {
    Infinite in deltas && forall b :: b in deltas ==> deltas[b] == CountUpTo(values, b) as real
  }

  /** Of these bounds, `r` is the least finite one that is not below `v`, or the last finite
      one if all are below. */
  ghost predicate Refines(bounds: set<Bound>, v: real, r: real) {
    if exists b :: b in bounds && b.Finite? && v <= b.value
    then Finite(r) in bounds && v <= r && forall b :: b in bounds && b.Finite? && v <= b.value ==> r <= b.value
    else LastFinite(bounds, r)
  }

  lemma CountOfAll(values: seq<real>)
    ensures CountUpTo(values, Infinite) == |values|
  {
    CountAll(values, Infinite);
  }

  lemma TopIsInfinite(deltas: map<Bound, real>, values: seq<real>, top: Bound)
    requires CountsOf(deltas, values) && Highest(deltas, top)
    ensures top == Infinite && deltas[top] == |values| as real
  {
    CountOfAll(values);
  }

  /** The estimate refines the exact percentile: it is the least finite bound that is not below
      it, or the last finite bound if the exact percentile lies beyond all of them. */
  lemma EstimateRefinesPercentile(deltas: map<Bound, real>, values: seq<real>, p: real, v: real, r: Option<real>)
    requires CountsOf(deltas, values) && values != [] && 0.0 < p <= 1.0
    requires NearestRank(values, p, v) && Estimate(deltas, p, r)
    ensures r.Some? && Refines(deltas.Keys, v, r.value)
  {
    hide CountUpTo, Rank, LastFinite;
    var rank := Rank(p, |values| as real);
    var top :| Highest(deltas, top) && EstimateBelow(deltas, deltas[top], p, r);
    TopIsInfinite(deltas, values, top);
    forall b | b in deltas ensures deltas[b] >= rank as real <==> AtMost(Finite(v), b) {
      assert CountUpTo(values, b) >= rank <==> AtMost(Finite(v), b);
    }
    assert AtMost(Finite(v), Infinite);
    if r.Some? && !FirstReaching(deltas, rank, Infinite) {
      assert FirstReaching(deltas, rank, Finite(r.value));
    }
  }

  lemma ScaledBeyond(p: real, x: real)
    requires x > 0.0
    ensures p * x > x <==> p > 1.0
  {
    var d := (p - 1.0) * x;
    assert d == p * x - x;
    if p > 1.0 {
      assert d > 0.0;
    } else {
      assert (1.0 - p) * x >= 0.0;
    }
  }

  lemma CeilAbove(x: real, n: int)
    ensures Ceil(x) > n <==> x > n as real
  {
  }

  lemma RankBeyond(p: real, n: nat)
    requires n > 0
    ensures Rank(p, n as real) > n <==> p > 1.0
  {
    ScaledBeyond(p, n as real);
    CeilAbove(p * n as real, n);
  }

  /** The estimate does not check `p`. It and the exact percentile agree on whether there is a
      result exactly if there are no observations or `p` is positive: for other `p` the estimate
      is a bound although the exact percentile is undefined. */
  lemma DefinednessAgreesExactly(deltas: map<Bound, real>, values: seq<real>, p: real, r: Option<real>, exact: Option<real>)
    requires CountsOf(deltas, values) && Estimate(deltas, p, r)
    requires exact.Some? <==> values != [] && 0.0 < p <= 1.0
    ensures r.Some? <==> values != [] && p <= 1.0
    ensures (r.Some? <==> exact.Some?) <==> values == [] || p > 0.0
  {
    hide CountUpTo, Rank, LastFinite;
    var top :| Highest(deltas, top) && EstimateBelow(deltas, deltas[top], p, r);
    TopIsInfinite(deltas, values, top);
    if values != [] {
      RankBeyond(p, |values|);
      forall b | b in deltas ensures deltas[b] <= |values| as real {
        CountBounds(values, b);
      }
    }
  }

  /** One observation and `p == 0.0`: the exact percentile is undefined, the estimate is not. */
  lemma EstimateWithoutPercentile()
    ensures var deltas := map[Finite(1.0) := 1.0, Infinite := 1.0];
      CountsOf(deltas, [1.0]) && Estimate(deltas, 0.0, Some(1.0))
  {
    var deltas := map[Finite(1.0) := 1.0, Infinite := 1.0];
    CountOfAll([1.0]);
    CountAll([1.0], Finite(1.0));
    assert Rank(0.0, 1.0) == 0;
    assert Highest(deltas, Infinite);
    assert FirstReaching(deltas, 0, Finite(1.0));
    assert EstimateBelow(deltas, deltas[Infinite], 0.0, Some(1.0));
  }

  // ---------------------------------------------------------------- from scrapes to deltas

  function SeriesLabels(group: Labels, text: string): Labels {
    group["le" := text]
  }

  /** The observations of all label groups together. */
  function Together(observed: seq<seq<real>>): seq<real> {
    if observed == [] then [] else Together(observed[..|observed| - 1]) + observed[|observed| - 1]
  }

  /** The scrapes expose a histogram with one series for each label group and each bound text,
      and between them the group `groups[i]` observed `observed[i]`. A series may be new in `after`. */
  ghost predicate Exposes(parse: BoundParser, before: Snapshot, after: Snapshot, base: string,
                          groups: seq<Labels>, observed: seq<seq<real>>, texts: set<string>)
    ensures Exposes(parse, before, after, base, groups, observed, texts) ==>
      Parsed(before) && Parsed(after) && |observed| == |groups| > 0
    ensures Exposes(parse, before, after, base, groups, observed, texts) ==> forall t :: t in texts ==> parse(t).Some?
  {
    && Parsed(before) && Parsed(after)
    && |observed| == |groups| > 0 && NoDup(groups)
    && (forall i :: 0 <= i < |groups| ==> "le" !in groups[i])
    && (forall t :: t in texts ==> parse(t).Some?)
    && (forall t, u :: t in texts && u in texts && parse(t) == parse(u) ==> t == u)
    && (exists t :: t in texts && parse(t) == Some(Infinite))
    && OnlyGroups(after, base, groups, texts)
    && (forall i, t :: 0 <= i < |groups| && t in texts ==>
          Grew(parse, before, after, base, SeriesLabels(groups[i], t), observed[i], t))
  }

  ghost predicate OnlyGroups(after: Snapshot, base: string, groups: seq<Labels>, texts: set<string>) {
    forall k :: k in after && after[k].name == base + "_bucket" ==>
      exists i, t :: 0 <= i < |groups| && t in texts && after[k].labels == SeriesLabels(groups[i], t)
  }

  /** One series grew by the observations it counts. */
  ghost predicate Grew(parse: BoundParser, before: Snapshot, after: Snapshot, base: string,
                       labels: Labels, observed: seq<real>, text: string) {
    var k := Key(base + "_bucket", labels);
    && k in after && after[k].name == base + "_bucket" && after[k].labels == labels
    && parse(text).Some?
    && (k in before ==> before[k].name == base + "_bucket" && before[k].labels == labels)
    && after[k].value == (if k in before then before[k].value else 0.0) + CountUpTo(observed, parse(text).value) as real
  }

  function GroupId(group: Labels, text: string): string {
    Identity(SeriesLabels(group, text))
  }

  lemma {:induction false} CountTogether(observed: seq<seq<real>>, b: Bound)
    ensures CountUpTo(Together(observed), b) == Total(observed, (values: seq<real>) => CountUpTo(values, b))
  {
    if observed != [] {
      CountTogether(observed[..|observed| - 1], b);
      TotalConcat(Together(observed[..|observed| - 1]), observed[|observed| - 1], Within(b));
    }
  }

  lemma TheSeries(parse: BoundParser, before: Snapshot, after: Snapshot, base: string,
                  groups: seq<Labels>, observed: seq<seq<real>>, texts: set<string>, t: string, i: nat)
    requires Exposes(parse, before, after, base, groups, observed, texts) && t in texts && i < |groups|
    ensures "le" !in groups[i] && Grew(parse, before, after, base, SeriesLabels(groups[i], t), observed[i], t)
    ensures Wanted(Series(base + "_bucket", SeriesLabels(groups[i], t), 0.0), base + "_bucket", map["le" := t])
  {
    hide OnlyGroups, Grew, Parsed;
  }

  /** Under `Exposes` the wanted series of a bound text are those of the groups, one each. */
  lemma ExposedSeries(parse: BoundParser, before: Snapshot, after: Snapshot, base: string,
                      groups: seq<Labels>, observed: seq<seq<real>>, texts: set<string>, t: string, id: string)
    requires Exposes(parse, before, after, base, groups, observed, texts) && t in texts
    ensures id in Matching(after, base + "_bucket", map["le" := t]) ==>
      exists i :: 0 <= i < |groups| && GroupId(groups[i], t) == id
  {
    hide Identity, Matching, Grew, Parsed, NoDup;
    if id in Matching(after, base + "_bucket", map["le" := t]) {
      var k := FoundIsWanted(after, base + "_bucket", map["le" := t], id);
      var i, u :| 0 <= i < |groups| && u in texts && after[k].labels == SeriesLabels(groups[i], u);
      var wanted: Labels := map["le" := t];
      assert "le" in wanted && after[k].labels["le"] == u;
      assert GroupId(groups[i], t) == id;
    }
  }

  lemma GroupsDiffer(parse: BoundParser, before: Snapshot, after: Snapshot, base: string,
                     groups: seq<Labels>, observed: seq<seq<real>>, texts: set<string>, t: string, i: nat, j: nat)
    requires Exposes(parse, before, after, base, groups, observed, texts) && t in texts
    requires i < j < |groups|
    ensures GroupId(groups[i], t) != GroupId(groups[j], t)
  {
    hide Identity, Parsed, Wanted, OnlyGroups, CountUpTo;
    TheSeries(parse, before, after, base, groups, observed, texts, t, i);
    TheSeries(parse, before, after, base, groups, observed, texts, t, j);
    SameKeySameGroup(groups[i], groups[j], t);
  }

  lemma SameKeySameGroup(a: Labels, b: Labels, t: string)
    requires "le" !in a && "le" !in b
    ensures SeriesLabels(a, t) == SeriesLabels(b, t) ==> a == b
  {
    assert a == SeriesLabels(a, t) - {"le"} && b == SeriesLabels(b, t) - {"le"};
  }

  /** The growth of one exposed series. */
  lemma SeriesGrowth(parse: BoundParser, before: Snapshot, after: Snapshot, base: string,
                     groups: seq<Labels>, observed: seq<seq<real>>, texts: set<string>, t: string, i: nat)
    requires Exposes(parse, before, after, base, groups, observed, texts) && t in texts && i < |groups|
    ensures var b := Matching(before, base + "_bucket", map["le" := t]);
      var a := Matching(after, base + "_bucket", map["le" := t]);
      var id := GroupId(groups[i], t);
      && id in a && a[id] >= ValueAt(b, id)
      && Growth(b, a)(id) == CountUpTo(observed[i], parse(t).value) as real
  {
    hide Identity, CountUpTo, Exposes, Parsed, Matching, ContainsLabels;
    var name, labels := base + "_bucket", SeriesLabels(groups[i], t);
    TheSeries(parse, before, after, base, groups, observed, texts, t, i);
    var k := Key(name, labels);
    WantedIsFound(after, name, map["le" := t], k);
    if k in before {
      WantedIsFound(before, name, map["le" := t], k);
    } else if Identity(labels) in Matching(before, name, map["le" := t]) {
      var l := FoundIsWanted(before, name, map["le" := t], Identity(labels));
      assert false;
    }
    CountBounds(observed[i], parse(t).value);
  }

  /** A sum over distinct label texts, in the order of a sequence. */
  lemma {:induction false} SumInOrder(ids: seq<string>, f: string -> real, counts: seq<int>)
    requires NoDup(ids) && |counts| == |ids|
    requires forall i :: 0 <= i < |ids| ==> f(ids[i]) == counts[i] as real
    ensures SumOver((set id | id in ids), f) == Total(counts, (n: int) => n) as real
  {
    if ids == [] {
      assert (set id | id in ids) == {};
    } else {
      var n := |ids| - 1;
      SumInOrder(ids[..n], f, counts[..n]);
      SumPick((set id | id in ids), f, ids[n]);
      assert (set id | id in ids) - {ids[n]} == set id | id in ids[..n];
    }
  }

  /** The delta of a bound counts the observations of all groups up to that bound. */
  lemma ExposedDelta(parse: BoundParser, before: Snapshot, after: Snapshot, base: string,
                     groups: seq<Labels>, observed: seq<seq<real>>, texts: set<string>, t: string)
    requires Exposes(parse, before, after, base, groups, observed, texts) && t in texts
    ensures var d := DeltaAt(before, after, base, t);
      !d.reset && d.value == CountUpTo(Together(observed), parse(t).value) as real
  {
    hide Exposes, Parsed, Matching, CountUpTo, GroupId, Identity, Growth;
    var b, a := Matching(before, base + "_bucket", map["le" := t]), Matching(after, base + "_bucket", map["le" := t]);
    var ids := seq(|groups|, (i: nat) requires i < |groups| => GroupId(groups[i], t));
    var counts := seq(|observed|, (i: nat) requires i < |observed| => CountUpTo(observed[i], parse(t).value));
    forall i: nat, j: nat | i < j < |ids| ensures ids[i] != ids[j] {
      GroupsDiffer(parse, before, after, base, groups, observed, texts, t, i, j);
    }
    forall i: nat | i < |ids| ensures
      Growth(b, a)(ids[i]) == counts[i] as real && ids[i] in a && a[ids[i]] >= ValueAt(b, ids[i])
    {
      SeriesGrowth(parse, before, after, base, groups, observed, texts, t, i);
    }
    forall id ensures id in a ==> id in ids {
      ExposedSeries(parse, before, after, base, groups, observed, texts, t, id);
      if id in a {
        var i :| 0 <= i < |groups| && GroupId(groups[i], t) == id;
        assert ids[i] == id;
      }
    }
    assert a.Keys == set id | id in ids;
    SumInOrder(ids, Growth(b, a), counts);
    CountTogether(observed, parse(t).value);
    TotalCongruence(counts, (n: int) => n, observed, (values: seq<real>) => CountUpTo(values, parse(t).value));
    assert ids[0] in a;
  }

  /** The deltas that `HistogramPercentile` works on count all observations between the scrapes. */
  lemma ExposedDeltasCount(parse: BoundParser, before: Snapshot, after: Snapshot, base: string,
                           groups: seq<Labels>, observed: seq<seq<real>>, texts: set<string>, chosen: map<Bound, string>)
    requires Exposes(parse, before, after, base, groups, observed, texts)
    requires Texts(parse, after, after.Keys, base, chosen)
    ensures CountsOf(Deltas(before, after, base, chosen), Together(observed))
    ensures !AnyBucketReset(before, after, base, chosen)
    ensures chosen.Keys == Bounds(parse, texts)
  {
    hide Parsed, DeltaAt, CountUpTo, Grew;
    forall b | b in chosen ensures chosen[b] in texts && parse(chosen[b]) == Some(b) {
      var k :| k in after.Keys && IsBucket(parse, after, base, k)
        && chosen[b] == BoundText(after[k]) && parse(chosen[b]) == Some(b);
      var i, u :| 0 <= i < |groups| && u in texts && after[k].labels == SeriesLabels(groups[i], u);
    }
    forall b | b in chosen ensures
      var d := DeltaAt(before, after, base, chosen[b]);
      !d.reset && d.value == CountUpTo(Together(observed), b) as real
    {
      ExposedDelta(parse, before, after, base, groups, observed, texts, chosen[b]);
    }
    forall t | t in texts ensures parse(t).value in chosen {
      TextIsExposed(parse, before, after, base, groups, observed, texts, t);
    }
  }

  /** The bounds that the texts stand for. */
  function Bounds(parse: BoundParser, texts: set<string>): set<Bound>
    requires forall t :: t in texts ==> parse(t).Some?
  {
    set t | t in texts :: parse(t).value
  }

  /** Every text occurs in the scrape. */
  lemma TextIsExposed(parse: BoundParser, before: Snapshot, after: Snapshot, base: string,
                      groups: seq<Labels>, observed: seq<seq<real>>, texts: set<string>, t: string)
    requires Exposes(parse, before, after, base, groups, observed, texts) && t in texts
    ensures exists k :: k in after.Keys && IsBucket(parse, after, base, k) && BoundText(after[k]) == t
  {
    hide Parsed, Exposes, CountUpTo;
    TheSeries(parse, before, after, base, groups, observed, texts, t, 0);
    var k := Key(base + "_bucket", SeriesLabels(groups[0], t));
    assert k in after.Keys && IsBucket(parse, after, base, k) && BoundText(after[k]) == t;
  }

  /** End to end: two scrapes of a histogram, any number of label groups, any observations in
      between and any order of walking the maps. The percentile read from the buckets is the
      least bucket bound at or above the exact nearest-rank percentile of those observations,
      or the last finite bound when that percentile lies beyond all finite bounds. */
  lemma HistogramRefinesPercentile(parse: BoundParser, before: Snapshot, after: Snapshot, base: string,
                                   groups: seq<Labels>, observed: seq<seq<real>>, texts: set<string>,
                                   p: real, v: real, r: Option<real>, reset: bool, chosen: map<Bound, string>)
    requires Exposes(parse, before, after, base, groups, observed, texts)
    requires Estimated(parse, before, after, base, p, r, reset, chosen)
    requires Together(observed) != [] && 0.0 < p <= 1.0 && NearestRank(Together(observed), p, v)
    ensures !reset && r.Some? && Refines(Bounds(parse, texts), v, r.value)
  {
    hide Exposes, Texts, AnyBucketReset, Deltas, Estimate, NearestRank, CountsOf, Refines;
    ExposedDeltasCount(parse, before, after, base, groups, observed, texts, chosen);
    EstimateRefinesPercentile(Deltas(before, after, base, chosen), Together(observed), p, v, r);
    DeltaKeys(before, after, base, chosen);
  }

  lemma DeltaKeys(before: Snapshot, after: Snapshot, base: string, chosen: map<Bound, string>)
    requires Parsed(before) && Parsed(after)
    ensures Deltas(before, after, base, chosen).Keys == chosen.Keys
  {
  }
}
