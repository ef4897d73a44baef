/** Counter deltas between two scrapes: `CounterDelta` and `HistogramMean` of
    `benchmark/internal/metrics/prometheus.go`, on parsed samples with real values. */
module Prometheus {
  import opened Collections
  import opened Sorting

  type Labels = map<string, string>
  datatype Series = Series(name: string, labels: Labels, value: real)
  type Snapshot = map<string, Series>

  function LabelText(labels: Labels, names: seq<string>): string
    requires forall i :: 0 <= i < |names| ==> names[i] in labels
  {
    if names == [] then ""
    else "|" + names[0] + "=" + labels[names[0]] + LabelText(labels, names[1..])
  }

  /** The stable text of a label set; `Key` puts the metric name before it. */
  function Identity(labels: Labels): string {
    LabelText(labels, SortedKeys(labels.Keys))
  }

  function Key(name: string, labels: Labels): string {
    name + Identity(labels)
  }

  /** `Parse` stores every sample under its own key. */
  predicate Parsed(s: Snapshot) {
    forall k :: k in s ==> k == Key(s[k].name, s[k].labels)
  }

  /** An absent label reads as the empty string. */
  predicate ContainsLabels(actual: Labels, wanted: Labels) {
    forall l :: l in wanted ==> (if l in actual then actual[l] else "") == wanted[l]
  }

  predicate Wanted(x: Series, name: string, labels: Labels) {
    x.name == name && ContainsLabels(x.labels, labels)
  }

  /** The values of the wanted series by label text. */
  function Matching(s: Snapshot, name: string, labels: Labels): map<string, real>
    requires Parsed(s)
  {
    MatchingAmong(s, s.Keys, name, labels)
  }

  function MatchingAmong(s: Snapshot, keys: set<string>, name: string, labels: Labels): map<string, real>
    requires Parsed(s) && keys <= s.Keys
  {
    map id | id in (set k | k in keys && Wanted(s[k], name, labels) :: Identity(s[k].labels)) :: s[name + id].value
  }

  /** Every wanted series is found under its label text, with its value. */
  lemma WantedIsFound(s: Snapshot, name: string, labels: Labels, k: string)
    requires Parsed(s) && k in s && Wanted(s[k], name, labels)
    ensures Identity(s[k].labels) in Matching(s, name, labels)
    ensures Matching(s, name, labels)[Identity(s[k].labels)] == s[k].value
  {
    hide Identity, ContainsLabels;
  }

  /** Everything found is a wanted series. */
  lemma FoundIsWanted(s: Snapshot, name: string, labels: Labels, id: string) returns (k: string)
    requires Parsed(s) && id in Matching(s, name, labels)
    ensures k in s && Wanted(s[k], name, labels) && Identity(s[k].labels) == id && k == name + id
  {
    hide Identity, ContainsLabels;
    k :| k in s && Wanted(s[k], name, labels) && Identity(s[k].labels) == id;
  }

  /** A value is found under a label text exactly if some series of that name has these labels and
      this value, an absent label counting as the empty string. */
  lemma MatchingExact(s: Snapshot, name: string, labels: Labels, id: string, value: real)
    requires Parsed(s)
    ensures id in Matching(s, name, labels) && Matching(s, name, labels)[id] == value <==>
      exists k :: k in s && s[k].name == name && s[k].value == value && Identity(s[k].labels) == id
        && forall l :: l in labels ==>
          if l in s[k].labels then s[k].labels[l] == labels[l] else labels[l] == ""
  {
    hide Identity, Matching;
    if id in Matching(s, name, labels) {
      var k := FoundIsWanted(s, name, labels, id);
      WantedIsFound(s, name, labels, k);
      assert Wanted(s[k], name, labels);
    }
    forall k | k in s && Wanted(s[k], name, labels)
      ensures Identity(s[k].labels) in Matching(s, name, labels)
      ensures Matching(s, name, labels)[Identity(s[k].labels)] == s[k].value
    {
      WantedIsFound(s, name, labels, k);
    }
  }

  // ---------------------------------------------------------------- label texts

  /** Label names hold neither separator, as the exposition format demands; values hold no bar. */
  predicate Plain(labels: Labels) {
    forall l :: l in labels ==> '=' !in l && '|' !in l && '|' !in labels[l]
  }

  predicate PlainNames(labels: Labels, names: seq<string>) {
    forall i :: 0 <= i < |names| ==>
      names[i] in labels && '=' !in names[i] && '|' !in names[i] && '|' !in labels[names[i]]
  }

  lemma Longer(a: string, x: string, b: string, y: string, c: char)
    requires c !in b && a + x == b + y && (x != [] ==> x[0] == c)
    ensures |a| >= |b|
  {
    var u := a + x;
    assert forall i :: 0 <= i < |b| ==> u[i] == b[i];
    if x != [] {
      assert u[|a|] == c;
    }
  }

  /** Two texts split at the first occurrence of a character in one way. */
  lemma SplitUnique(a: string, x: string, b: string, y: string, c: char)
    requires c !in a && c !in b && a + x == b + y
    requires (x != [] ==> x[0] == c) && (y != [] ==> y[0] == c)
    ensures a == b && x == y
  {
    Longer(a, x, b, y, c);
    Longer(b, y, a, x, c);
    assert a == (a + x)[..|a|] && b == (b + y)[..|b|];
    assert x == (a + x)[|a|..] && y == (b + y)[|b|..];
  }

  lemma TextBegins(labels: Labels, names: seq<string>)
    requires forall i :: 0 <= i < |names| ==> names[i] in labels
    ensures LabelText(labels, names) == "" <==> names == []
    ensures names != [] ==> LabelText(labels, names)[0] == '|'
  {
  }

  /** The first label of two equal texts is the same, and so is the rest. */
  lemma TextStep(l: string, v: string, x: string, m: string, w: string, y: string)
    requires '=' !in l && '=' !in m && '|' !in v && '|' !in w
    requires (x != "" ==> x[0] == '|') && (y != "" ==> y[0] == '|')
    requires "|" + l + "=" + v + x == "|" + m + "=" + w + y
    ensures l == m && v == w && x == y
  {
    var s, t := "=" + v + x, "=" + w + y;
    assert ("|" + l + "=" + v + x)[1..] == l + s && ("|" + m + "=" + w + y)[1..] == m + t;
    SplitUnique(l, s, m, t, '=');
    assert s[1..] == v + x && t[1..] == w + y;
    SplitUnique(v, x, w, y, '|');
  }

  /** The text of labels determines them, if they are plain. */
  lemma {:induction false} TextUnique(a: Labels, m: seq<string>, b: Labels, n: seq<string>)
    requires PlainNames(a, m) && PlainNames(b, n) && LabelText(a, m) == LabelText(b, n)
    ensures m == n && forall i :: 0 <= i < |m| ==> a[m[i]] == b[n[i]]
    decreases |m|
  {
    TextBegins(a, m);
    TextBegins(b, n);
    if m != [] {
      TextBegins(a, m[1..]);
      TextBegins(b, n[1..]);
      TextStep(m[0], a[m[0]], LabelText(a, m[1..]), n[0], b[n[0]], LabelText(b, n[1..]));
      hide LabelText;
      TextUnique(a, m[1..], b, n[1..]);
      assert m == [m[0]] + m[1..] && n == [n[0]] + n[1..];
      forall i | 0 <= i < |m| ensures a[m[i]] == b[n[i]] {
        if i > 0 {
          assert m[i] == m[1..][i - 1] && n[i] == n[1..][i - 1];
        }
      }
    }
  }

  /** So different plain label sets are different series. */
  lemma IdentityUnique(a: Labels, b: Labels)
    requires Plain(a) && Plain(b)
    ensures Identity(a) == Identity(b) <==> a == b
  {
    hide SortedKeys;
    if Identity(a) == Identity(b) {
      var m, n := SortedKeys(a.Keys), SortedKeys(b.Keys);
      assert forall i :: 0 <= i < |m| ==> m[i] in m;
      assert forall i :: 0 <= i < |n| ==> n[i] in n;
      TextUnique(a, m, b, n);
      forall l ensures l in a <==> l in b {
        assert l in m <==> l in n;
      }
      forall l | l in a ensures a[l] == b[l] {
        assert l in m;
        var i :| 0 <= i < |m| && m[i] == l;
      }
    }
  }

  /** A bar in a value can make two label sets one series. */
  lemma BarsCollide()
    ensures Identity(map["a" := "1|b=2"]) == Identity(map["a" := "1", "b" := "2"])
  {
    var one, two: Labels := map["a" := "1|b=2"], map["a" := "1", "b" := "2"];
    OneName("a");
    TwoNames();
    assert one.Keys == {"a"} && two.Keys == {"a", "b"};
    assert ["a", "b"][1..] == ["b"] && ["b"][1..] == [] && ["a"][1..] == [];
    assert LabelText(two, ["b"]) == "|b=2";
    assert LabelText(two, ["a", "b"]) == "|a=1" + "|b=2";
    assert LabelText(one, ["a"]) == "|a=" + "1|b=2" + "";
  }

  lemma OneName(l: string)
    ensures SortedKeys({l}) == [l]
  {
    var s := SortedKeys({l});
    assert l in s && forall i :: 0 <= i < |s| ==> s[i] in s;
  }

  lemma TwoNames()
    ensures SortedKeys({"a", "b"}) == ["a", "b"]
  {
    var s := SortedKeys({"a", "b"});
    assert "a" in s && "b" in s;
    assert !Before("b", "a");
    var i, j :| 0 <= i < |s| && 0 <= j < |s| && s[i] == "a" && s[j] == "b";
    assert i < j && forall k :: 0 <= k < |s| ==> s[k] in s;
  }

  // ---------------------------------------------------------------- sums over label texts

  ghost function SumOver(ids: set<string>, f: string -> real): real {
    if ids == {} then 0.0 else
      var id :| id in ids;
      f(id) + SumOver(ids - {id}, f)
  }

  /** The order of summation does not matter. */
  lemma {:induction false} SumPick(ids: set<string>, f: string -> real, id: string)
    requires id in ids
    ensures SumOver(ids, f) == f(id) + SumOver(ids - {id}, f)
    decreases |ids|
  {
    var first :| first in ids && SumOver(ids, f) == f(first) + SumOver(ids - {first}, f);
    if first != id {
      SumPick(ids - {first}, f, id);
      SumPick(ids - {id}, f, first);
      assert ids - {first} - {id} == ids - {id} - {first};
    }
  }

  lemma {:induction false} SumAdd(ids: set<string>, f: string -> real, g: string -> real, h: string -> real)
    requires forall id :: id in ids ==> h(id) == f(id) + g(id)
    ensures SumOver(ids, h) == SumOver(ids, f) + SumOver(ids, g)
    decreases |ids|
  {
    if ids != {} {
      var id :| id in ids;
      SumPick(ids, f, id);
      SumPick(ids, g, id);
      SumPick(ids, h, id);
      SumAdd(ids - {id}, f, g, h);
    }
  }

  /** Terms that are zero outside `part` do not count. */
  lemma {:induction false} SumPart(ids: set<string>, part: set<string>, f: string -> real)
    requires part <= ids
    requires forall id :: id in ids && id !in part ==> f(id) == 0.0
    ensures SumOver(ids, f) == SumOver(part, f)
    decreases |ids|
  {
    if ids == part {
    } else {
      var id :| id in ids && id !in part;
      SumPick(ids, f, id);
      SumPart(ids - {id}, part, f);
    }
  }

  // ---------------------------------------------------------------- deltas

  datatype Delta = Delta(value: real, found: bool, reset: bool, missing: bool)

  function ValueAt(m: map<string, real>, id: string): real {
    if id in m then m[id] else 0.0
  }

  function Values(m: map<string, real>): string -> real {
    (id: string) => ValueAt(m, id)
  }

  /** The growth of one series: nothing if it was reset. */
  function Growth(before: map<string, real>, after: map<string, real>): string -> real {
    (id: string) => if ValueAt(after, id) < ValueAt(before, id) then 0.0 else ValueAt(after, id) - ValueAt(before, id)
  }

  /** Some series of `after` is below its value in `before`. */
  predicate AnyReset(before: map<string, real>, after: map<string, real>) {
    exists id :: id in after && after[id] < ValueAt(before, id)
  }

  ghost function DeltaOf(before: map<string, real>, after: map<string, real>): Delta {
    if after == map[] then Delta(0.0, false, false, true)
    else Delta(SumOver(after.Keys, Growth(before, after)), true, AnyReset(before, after), !(before.Keys <= after.Keys))
  }

  method MatchingSeries(s: Snapshot, name: string, labels: Labels) returns (found: map<string, real>)
    requires Parsed(s)
    ensures found == Matching(s, name, labels)
  {
    hide Matching, MatchingAmong, Wanted, Identity;
    MatchingNone(s, name, labels);
    found := map[];
    var rest := s.Keys;
    while rest != {}
      invariant rest <= s.Keys && found == MatchingAmong(s, s.Keys - rest, name, labels)
      decreases rest
    {
      var k :| k in rest;
      assert s.Keys - (rest - {k}) == s.Keys - rest + {k};
      MatchingMore(s, s.Keys - rest, name, labels, k);
      rest := rest - {k};
      if !Wanted(s[k], name, labels) {
        continue;
      }
      found := found[Identity(s[k].labels) := s[k].value];
    }
    assert s.Keys - rest == s.Keys;
  }

  lemma MatchingNone(s: Snapshot, name: string, labels: Labels)
    requires Parsed(s)
    ensures MatchingAmong(s, s.Keys - s.Keys, name, labels) == map[]
    ensures Matching(s, name, labels) == MatchingAmong(s, s.Keys, name, labels)
  {
  }

  /** What one more series adds. */
  lemma MatchingMore(s: Snapshot, keys: set<string>, name: string, labels: Labels, k: string)
    requires Parsed(s) && keys <= s.Keys && k in s
    ensures MatchingAmong(s, keys + {k}, name, labels) ==
      if Wanted(s[k], name, labels) then MatchingAmong(s, keys, name, labels)[Identity(s[k].labels) := s[k].value]
      else MatchingAmong(s, keys, name, labels)
  {
    hide Identity, ContainsLabels;
  }

  /** `CounterDelta`: both loops, in whatever order the maps are walked. */
  method CounterDelta(before: Snapshot, after: Snapshot, name: string, labels: Labels) returns (d: Delta)
    requires Parsed(before) && Parsed(after)
    ensures d == DeltaOf(Matching(before, name, labels), Matching(after, name, labels))
  {
    hide Matching, Parsed;
    var b := MatchingSeries(before, name, labels);
    var a := MatchingSeries(after, name, labels);
    if |a| == 0 {
      return Delta(0.0, false, false, true);
    }
    d := Delta(0.0, true, false, false);
    var rest := a.Keys;
    while rest != {}
      invariant rest <= a.Keys && d.found && !d.missing
      invariant d.value + SumOver(rest, Growth(b, a)) == SumOver(a.Keys, Growth(b, a))
      invariant d.reset <==> exists id :: id in a && id !in rest && a[id] < ValueAt(b, id)
      decreases rest
    {
      var id :| id in rest;
      SumPick(rest, Growth(b, a), id);
      rest := rest - {id};
      if a[id] < ValueAt(b, id) {
        d := d.(reset := true);
        continue;
      }
      d := d.(value := d.value + (a[id] - ValueAt(b, id)));
    }
    rest := b.Keys;
    ghost var counted := d;
    while rest != {}
      invariant rest <= b.Keys && d == counted.(missing := exists id :: id in b && id !in rest && id !in a)
      decreases rest
    {
      var id :| id in rest;
      rest := rest - {id};
      if id !in a {
        d := d.(missing := true);
      }
    }
  }

  /** What a delta says, series by series: it is found exactly if there are series, reset exactly
      if one fell, and missing exactly if one disappeared or there are none; its value is the growth
      of the series that did not fall, a new one counting from zero. */
  lemma DeltaSays(before: map<string, real>, after: map<string, real>, kept: set<string>)
    requires kept == set id | id in after && after[id] >= if id in before then before[id] else 0.0
    ensures var d := DeltaOf(before, after);
      && (d.found <==> after != map[])
      && (d.reset <==> exists id :: id in after && after[id] < if id in before then before[id] else 0.0)
      && (d.missing <==> after == map[] || exists id :: id in before && id !in after)
      && d.value == SumOver(kept, Values(after)) - SumOver(kept, Values(before))
  {
    if after == map[] {
      assert kept == {};
    } else {
      SumPart(after.Keys, kept, Growth(before, after));
      SumAdd(kept, Growth(before, after), Values(before), Values(after));
    }
  }

  /** Without a reset or a disappeared series the delta is the difference of the sums. */
  lemma DeltaIsDifference(before: map<string, real>, after: map<string, real>)
    requires after != map[] && !DeltaOf(before, after).reset && !DeltaOf(before, after).missing
    ensures DeltaOf(before, after).value ==
      SumOver(after.Keys, Values(after)) - SumOver(before.Keys, Values(before))
  {
    SumPart(after.Keys, before.Keys, Values(before));
    SumAdd(after.Keys, Growth(before, after), Values(before), Values(after));
  }

  /** Deltas of consecutive intervals add up, series appearing on the way included. */
  lemma DeltasAdd(a: map<string, real>, b: map<string, real>, c: map<string, real>)
    requires b != map[] && c != map[]
    requires !DeltaOf(a, b).reset && !DeltaOf(a, b).missing && !DeltaOf(b, c).reset && !DeltaOf(b, c).missing
    ensures DeltaOf(a, c) == Delta(DeltaOf(a, b).value + DeltaOf(b, c).value, true, false, false)
  {
    forall id | id in c ensures c[id] >= ValueAt(a, id) {
      if id in b {
        assert c[id] >= b[id] >= ValueAt(a, id);
      } else {
        assert c[id] >= 0.0;
      }
    }
    DeltaIsDifference(a, b);
    DeltaIsDifference(b, c);
    DeltaIsDifference(a, c);
  }

  // ---------------------------------------------------------------- mean

  method HistogramMean(before: Snapshot, after: Snapshot, base: string) returns (mean: Option<real>, reset: bool)
    requires Parsed(before) && Parsed(after)
    ensures var sum := DeltaOf(Matching(before, base + "_sum", map[]), Matching(after, base + "_sum", map[]));
            var count := DeltaOf(Matching(before, base + "_count", map[]), Matching(after, base + "_count", map[]));
            && (reset <==> sum.reset || count.reset)
            && (mean.Some? <==> !reset && sum.found && count.found && count.value > 0.0)
            && (mean.Some? ==> mean.value * count.value == sum.value)
  {
    hide Matching, Parsed, DeltaOf;
    var sum := CounterDelta(before, after, base + "_sum", map[]);
    var count := CounterDelta(before, after, base + "_count", map[]);
    if sum.reset || count.reset {
      return None, true;
    }
    if !sum.found || !count.found || count.value <= 0.0 {
      return None, false;
    }
    return Some(sum.value / count.value), false;
  }
}
