/** `HistogramPercentile` of `benchmark/internal/metrics/prometheus.go` on whole snapshots,
    and the theorem that it refines the exact nearest-rank percentile of the observations
    behind the buckets. */
module Histograms {
  import opened Collections
  import opened Sorting
  import opened Prometheus
  import opened Percentiles

  /** How the text of a bound is read; `None` is a parse error. */
  type BoundParser = string -> Option<Bound>

  function BoundText(x: Series): string {
    if "le" in x.labels then x.labels["le"] else ""
  }

  ghost function DeltaAt(before: Snapshot, after: Snapshot, base: string, text: string): Delta
    requires Parsed(before) && Parsed(after)
  {
    DeltaOf(Matching(before, base + "_bucket", map["le" := text]), Matching(after, base + "_bucket", map["le" := text]))
  }

  /** The series `k` is a bucket of the histogram with a readable bound. */
  predicate IsBucket(parse: BoundParser, s: Snapshot, base: string, k: string) {
    k in s && s[k].name == base + "_bucket" && parse(BoundText(s[k])).Some?
  }

  /** For every readable bound, one of the texts that stand for it: several texts for the same
      bound are read once, whichever comes first. */
  ghost predicate Texts(parse: BoundParser, s: Snapshot, keys: set<string>, base: string, texts: map<Bound, string>)
    requires keys <= s.Keys
  {
    && (forall k :: k in keys && IsBucket(parse, s, base, k) ==> parse(BoundText(s[k])).value in texts)
    && (forall b :: b in texts ==>
          exists k :: k in keys && IsBucket(parse, s, base, k) && texts[b] == BoundText(s[k]) && parse(texts[b]) == Some(b))
  }

  ghost function Deltas(before: Snapshot, after: Snapshot, base: string, texts: map<Bound, string>): map<Bound, real>
    requires Parsed(before) && Parsed(after)
  {
    map b | b in texts :: DeltaAt(before, after, base, texts[b]).value
  }

  ghost predicate AnyBucketReset(before: Snapshot, after: Snapshot, base: string, texts: map<Bound, string>)
    requires Parsed(before) && Parsed(after)
  {
    exists b :: b in texts && DeltaAt(before, after, base, texts[b]).reset
  }

  /** A bucket of `after` is among the series its own delta is taken over. */
  lemma FoundHere(parse: BoundParser, before: Snapshot, after: Snapshot, base: string, k: string)
    requires Parsed(before) && Parsed(after) && IsBucket(parse, after, base, k)
    ensures DeltaAt(before, after, base, BoundText(after[k])).found
  {
    assert Identity(after[k].labels) in Matching(after, base + "_bucket", map["le" := BoundText(after[k])]);
  }

  /** Going on to the series `k`, which has no readable bound or one that is already there. */
  lemma TextsSkip(parse: BoundParser, s: Snapshot, keys: set<string>, base: string, texts: map<Bound, string>, k: string)
    requires keys <= s.Keys && k in s && Texts(parse, s, keys, base, texts)
    requires IsBucket(parse, s, base, k) ==> parse(BoundText(s[k])).value in texts
    ensures Texts(parse, s, keys + {k}, base, texts)
  {
  }

  lemma TextsMore(parse: BoundParser, s: Snapshot, keys: set<string>, base: string, texts: map<Bound, string>, k: string)
    requires keys <= s.Keys && k in s && Texts(parse, s, keys, base, texts)
    requires IsBucket(parse, s, base, k)
    ensures Texts(parse, s, keys + {k}, base, texts[parse(BoundText(s[k])).value := BoundText(s[k])])
  {
    var more := texts[parse(BoundText(s[k])).value := BoundText(s[k])];
    forall b | b in more ensures exists l ::
      l in keys + {k} && IsBucket(parse, s, base, l) && more[b] == BoundText(s[l]) && parse(more[b]) == Some(b)
    {
      var l := k;
      if b != parse(BoundText(s[k])).value {
        l :| l in keys && IsBucket(parse, s, base, l) && texts[b] == BoundText(s[l]) && parse(texts[b]) == Some(b);
      }
      assert l in keys + {k} && IsBucket(parse, s, base, l) && more[b] == BoundText(s[l]);
    }
  }

  lemma DeltasMore(before: Snapshot, after: Snapshot, base: string, texts: map<Bound, string>, upper: Bound, text: string)
    requires Parsed(before) && Parsed(after) && upper !in texts
    ensures var d := DeltaAt(before, after, base, text);
      && Deltas(before, after, base, texts[upper := text]) == Deltas(before, after, base, texts)[upper := d.value]
      && (AnyBucketReset(before, after, base, texts[upper := text])
          <==> AnyBucketReset(before, after, base, texts) || d.reset)
  {
    hide DeltaAt, Parsed;
    var more := texts[upper := text];
    assert upper in more && more[upper] == text;
    assert forall b :: b in texts ==> b in more && more[b] == texts[b];
  }

  lemma NoTexts(parse: BoundParser, before: Snapshot, after: Snapshot, base: string)
    requires Parsed(before) && Parsed(after)
    ensures Texts(parse, after, {}, base, map[]) && !AnyBucketReset(before, after, base, map[])
    ensures Represents([], Deltas(before, after, base, map[]))
  {
  }

  /** One bucket for each readable bound, with the delta of one of its texts. */
  ghost predicate Collected(parse: BoundParser, before: Snapshot, after: Snapshot, base: string,
                            buckets: seq<Bucket>, reset: bool, texts: map<Bound, string>)
    requires Parsed(before) && Parsed(after)
  {
    && Texts(parse, after, after.Keys, base, texts)
    && Represents(buckets, Deltas(before, after, base, texts))
    && (reset <==> AnyBucketReset(before, after, base, texts))
  }

  /** The loop over the scrape, in whatever order the map is walked. */
  method CollectBuckets(parse: BoundParser, before: Snapshot, after: Snapshot, base: string)
    returns (buckets: seq<Bucket>, reset: bool)
    requires Parsed(before) && Parsed(after)
    ensures exists texts :: Collected(parse, before, after, base, buckets, reset, texts)
  {
    hide DeltaAt, Parsed, Represents, Texts, AnyBucketReset, Deltas, DeltaOf, Matching;
    buckets, reset := [], false;
    ghost var texts: map<Bound, string> := map[];
    var seen: set<Bound> := {};
    var rest := after.Keys;
    NoTexts(parse, before, after, base);
    assert after.Keys - rest == {};
    while rest != {}
      invariant rest <= after.Keys && seen == texts.Keys
      invariant Texts(parse, after, after.Keys - rest, base, texts)
      invariant Represents(buckets, Deltas(before, after, base, texts))
      invariant reset <==> AnyBucketReset(before, after, base, texts)
      decreases rest
    {
      var k :| k in rest;
      assert after.Keys - (rest - {k}) == after.Keys - rest + {k};
      var text := BoundText(after[k]);
      if after[k].name != base + "_bucket" || parse(text).None? || parse(text).value in seen {
        TextsSkip(parse, after, after.Keys - rest, base, texts, k);
        rest := rest - {k};
        continue;
      }
      var upper := parse(text).value;
      TextsMore(parse, after, after.Keys - rest, base, texts, k);
      rest := rest - {k};
      seen := seen + {upper};
      var delta := CounterDelta(before, after, base + "_bucket", map["le" := text]);
      DeltaHere(before, after, base, text, delta);
      if delta.reset {
        reset := true;
      }
      FoundHere(parse, before, after, base, k);
      if delta.found {
        NoText(before, after, base, texts, upper);
        OneMore(buckets, Deltas(before, after, base, texts), upper, delta.value);
        buckets := buckets + [Bucket(upper, delta.value)];
      }
      DeltasMore(before, after, base, texts, upper, text);
      texts := texts[upper := text];
    }
    assert after.Keys - rest == after.Keys;
    assert Collected(parse, before, after, base, buckets, reset, texts);
  }

  lemma NoText(before: Snapshot, after: Snapshot, base: string, texts: map<Bound, string>, upper: Bound)
    requires Parsed(before) && Parsed(after) && upper !in texts
    ensures upper !in Deltas(before, after, base, texts)
  {
  }

  lemma DeltaHere(before: Snapshot, after: Snapshot, base: string, text: string, d: Delta)
    requires Parsed(before) && Parsed(after)
    requires d == DeltaOf(Matching(before, base + "_bucket", map["le" := text]),
                          Matching(after, base + "_bucket", map["le" := text]))
    ensures d == DeltaAt(before, after, base, text)
  {
  }

  lemma OneMore(buckets: seq<Bucket>, deltas: map<Bound, real>, upper: Bound, value: real)
    requires Represents(buckets, deltas) && upper !in deltas
    ensures Represents(buckets + [Bucket(upper, value)], deltas[upper := value])
  {
    var more := buckets + [Bucket(upper, value)];
    assert more[|buckets|].upper == upper;
    forall b | b in deltas ensures exists i :: 0 <= i < |more| && more[i].upper == b {
      var i :| 0 <= i < |buckets| && buckets[i].upper == b;
      assert more[i].upper == b;
    }
  }

  /** The value is the estimate from the deltas, or a bucket was reset and there is none. */
  ghost predicate Estimated(parse: BoundParser, before: Snapshot, after: Snapshot, base: string, p: real,
                            r: Option<real>, reset: bool, texts: map<Bound, string>)
    requires Parsed(before) && Parsed(after)
  {
    && Texts(parse, after, after.Keys, base, texts)
    && (reset <==> AnyBucketReset(before, after, base, texts))
    && if reset then r.None? else Estimate(Deltas(before, after, base, texts), p, r)
  }

  /** `HistogramPercentile`. */
  method HistogramPercentile(parse: BoundParser, before: Snapshot, after: Snapshot, base: string, p: real)
    returns (r: Option<real>, reset: bool)
    requires Parsed(before) && Parsed(after)
    ensures exists texts :: Estimated(parse, before, after, base, p, r, reset, texts)
  {
    hide Texts, Parsed, AnyBucketReset, Estimate, Sorted, Deltas;
    var buckets: seq<Bucket>;
    buckets, reset := CollectBuckets(parse, before, after, base);
    ghost var texts :| Collected(parse, before, after, base, buckets, reset, texts);
    ghost var deltas := Deltas(before, after, base, texts);
    if reset || |buckets| == 0 {
      NoBuckets(buckets, deltas, p);
      r := None;
      assert Estimated(parse, before, after, base, p, r, reset, texts);
      return;
    }
    SortingRepresents(buckets, deltas);
    r := ScanBuckets(Sorted(buckets, ByUpper()), p, deltas);
    assert Estimated(parse, before, after, base, p, r, reset, texts);
  }

  lemma NoBuckets(buckets: seq<Bucket>, deltas: map<Bound, real>, p: real)
    requires Represents(buckets, deltas)
    ensures buckets == [] ==> Estimate(deltas, p, None)
  {
  }
}
