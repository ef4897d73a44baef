/** What the rotating search of `_select` achieves: it always finds a least loaded healthy
    backend, takes healthy backends in turn when their loads are equal, and keeps their loads
    within one weight of each other. */
module RoutingSelection {
  import opened Collections
  import opened RoutingModel

  /** The offset at which the search meets backend `i`. */
  function OffsetOf(n: nat, cursor: nat, i: nat): (offset: nat)
    requires i < n && cursor < n
    ensures offset < n && At(n, cursor, offset) == i
  {
    if i >= cursor then i - cursor else i + n - cursor
  }

  lemma Wrap(n: nat, v: nat)
    requires n > 0 && v < 2 * n
    ensures v % n == if v < n then v else v - n
  {
  }

  /** Moving the cursor by `a` moves every offset by `a`. */
  lemma Shift(n: nat, cursor: nat, a: nat, b: nat)
    requires cursor < n && a <= n && b < n
    ensures At(n, At(n, cursor, a), b) == if a + b < n then At(n, cursor, a + b) else At(n, cursor, a + b - n)
  {
    Wrap(n, cursor + a);
    Wrap(n, At(n, cursor, a) + b);
    if a + b < n {
      Wrap(n, cursor + a + b);
    } else {
      Wrap(n, cursor + a + b - n);
    }
  }

  lemma OffsetsDiffer(n: nat, cursor: nat, a: nat, b: nat)
    requires cursor < n && a < b < n
    ensures At(n, cursor, a) != At(n, cursor, b)
  {
    Wrap(n, cursor + a);
    Wrap(n, cursor + b);
  }

  // ---------------------------------------------------------------- the chosen backend

  predicate AnyHealthy(slots: seq<Slot>) {
    exists i :: 0 <= i < |slots| && slots[i].health.Healthy?
  }

  /** Among the first `k` backends, one of the healthy ones has the least load. */
  lemma {:induction false} LeastExists(slots: seq<Slot>, k: nat) returns (i: nat)
    requires k <= |slots| && exists j :: 0 <= j < k && slots[j].health.Healthy?
    ensures i < k && slots[i].health.Healthy?
    ensures forall j :: 0 <= j < k && slots[j].health.Healthy? ==> slots[i].inflight <= slots[j].inflight
  {
    if exists j :: 0 <= j < k - 1 && slots[j].health.Healthy? {
      i := LeastExists(slots, k - 1);
      if slots[k - 1].health.Healthy? && slots[k - 1].inflight < slots[i].inflight {
        i := k - 1;
      }
    } else {
      i := k - 1;
    }
  }

  /** The search stops at the first least loaded backend it meets. */
  lemma {:induction false} SearchStops(slots: seq<Slot>, cursor: nat, from: nat, at: nat)
    requires slots != [] && from <= at < |slots| && LeastLoaded(slots, At(|slots|, cursor, at))
    requires forall k :: from <= k < at ==> !LeastLoaded(slots, At(|slots|, cursor, k))
    ensures Search(slots, cursor, from) == Some(At(|slots|, cursor, at))
    decreases at - from
  {
    if from < at {
      SearchStops(slots, cursor, from + 1, at);
    }
  }

  lemma {:induction false} SearchFinds(slots: seq<Slot>, cursor: nat, from: nat)
    requires slots != [] && from <= |slots|
    ensures Search(slots, cursor, from).None? ==>
      forall k :: from <= k < |slots| ==> !LeastLoaded(slots, At(|slots|, cursor, k))
    ensures Search(slots, cursor, from).Some? ==>
      exists at :: from <= at < |slots| && FirstAt(slots, cursor, from, at)
                   && Search(slots, cursor, from) == Some(At(|slots|, cursor, at))
    decreases |slots| - from
  {
    if from < |slots| {
      if LeastLoaded(slots, At(|slots|, cursor, from)) {
        assert FirstAt(slots, cursor, from, from);
      } else {
        SearchFinds(slots, cursor, from + 1);
        if Search(slots, cursor, from).Some? {
          var at :| from + 1 <= at < |slots| && FirstAt(slots, cursor, from + 1, at)
                    && Search(slots, cursor, from) == Some(At(|slots|, cursor, at));
          assert FirstAt(slots, cursor, from, at);
        }
      }
    }
  }

  /** The search from `from` on meets no least loaded backend before offset `at`. */
  ghost predicate FirstAt(slots: seq<Slot>, cursor: nat, from: nat, at: nat)
    requires slots != []
  {
    && LeastLoaded(slots, At(|slots|, cursor, at))
    && forall k :: from <= k < at ==> !LeastLoaded(slots, At(|slots|, cursor, k))
  }

  /** A backend is chosen exactly when one is healthy, and then it is a least loaded healthy
      one, the first of those from the cursor on. */
  lemma ChosenExactly(slots: seq<Slot>, cursor: nat)
    requires cursor < |slots|
    ensures Chosen(slots, cursor).Some? <==> AnyHealthy(slots)
    ensures Chosen(slots, cursor).Some? ==>
      exists at :: 0 <= at < |slots| && FirstAt(slots, cursor, 0, at)
                   && Chosen(slots, cursor).value == At(|slots|, cursor, at)
  {
    SearchFinds(slots, cursor, 0);
    if AnyHealthy(slots) {
      var i := LeastExists(slots, |slots|);
      assert LeastLoaded(slots, At(|slots|, cursor, OffsetOf(|slots|, cursor, i)));
    }
  }

  // ---------------------------------------------------------------- repeated selection

  /** What `_select` reads and writes of the pool. */
  datatype Ring = Ring(slots: seq<Slot>, cursor: nat) {
    predicate Formed() { cursor < |slots| }
  }

  function Selected(g: Ring, weight: nat): (r: Ring)
    requires g.Formed()
    ensures r.Formed() && |r.slots| == |g.slots|
  {
    match Chosen(g.slots, g.cursor)
    case None => g
    case Some(i) => if i >= |g.slots| then g else Ring(AddLoad(g.slots, i, weight), (i + 1) % |g.slots|)
  }

  function SelectedAll(g: Ring, weights: seq<nat>): (r: Ring)
    requires g.Formed()
    ensures r.Formed() && |r.slots| == |g.slots|
  {
    if weights == [] then g
    else Selected(SelectedAll(g, weights[..|weights| - 1]), weights[|weights| - 1])
  }

  /** Any two healthy backends carry loads at most `w` apart. */
  predicate Spread(slots: seq<Slot>, w: nat) {
    forall i, j :: 0 <= i < |slots| && 0 <= j < |slots| && slots[i].health.Healthy? && slots[j].health.Healthy? ==>
      slots[i].inflight - slots[j].inflight <= w
  }

  /** Selection alone never spreads the loads further than the heaviest weight. */
  lemma {:induction false} SpreadKept(g: Ring, weights: seq<nat>, w: nat)
    requires g.Formed() && Spread(g.slots, w)
    requires forall k :: 0 <= k < |weights| ==> weights[k] <= w
    ensures Spread(SelectedAll(g, weights).slots, w)
  {
    if weights != [] {
      SpreadKept(g, weights[..|weights| - 1], w);
      var before := SelectedAll(g, weights[..|weights| - 1]);
      ChosenExactly(before.slots, before.cursor);
    }
  }

  // ---------------------------------------------------------------- round robin

  /** The offsets below `k` at which the search meets a healthy backend, in order. */
  function HealthyOffsets(g: Ring, k: nat): (d: seq<nat>)
    requires g.Formed() && k <= |g.slots|
    ensures Increasing(d) && forall j :: 0 <= j < |d| ==> d[j] < k
  {
    if k == 0 then []
    else if g.slots[At(|g.slots|, g.cursor, k - 1)].health.Healthy? then HealthyOffsets(g, k - 1) + [k - 1]
    else HealthyOffsets(g, k - 1)
  }

  lemma {:induction false} HealthyOffsetsExact(g: Ring, k: nat, x: nat)
    requires g.Formed() && x < k <= |g.slots|
    ensures x in HealthyOffsets(g, k) <==> g.slots[At(|g.slots|, g.cursor, x)].health.Healthy?
  {
    var d := HealthyOffsets(g, k - 1);
    if x < k - 1 {
      HealthyOffsetsExact(g, k - 1, x);
      assert x in d + [k - 1] <==> x in d;
    } else {
      assert forall y :: y in d ==> y < x;
    }
  }

  /** The healthy backends in the cyclic order in which the search meets them. */
  function Cycle(g: Ring): (r: seq<nat>)
    requires g.Formed()
    ensures forall j :: 0 <= j < |r| ==> r[j] < |g.slots|
  {
    var d := HealthyOffsets(g, |g.slots|);
    seq(|d|, (j: nat) requires j < |d| => At(|g.slots|, g.cursor, d[j]))
  }

  function Ones(t: nat): seq<nat> { seq(t, _ => 1) }

  /** How often place `j` of `h` comes up among the first `t` turns. */
  function Turns(h: nat, t: nat, j: nat): int
    requires h > 0
  {
    t / h + if j < t % h then 1 else 0
  }

  /** The state after `t` unit selections from equal loads: the first `t % h` backends of
      the cycle are one ahead, and the cursor is just behind the last one taken. */
  ghost predicate InTurn(g: Ring, load: int, t: nat, r: Ring)
    requires g.Formed()
  {
    var d := HealthyOffsets(g, |g.slots|);
    var h := |d|;
    && h > 0 && |r.slots| == |g.slots|
    && (forall i :: 0 <= i < |g.slots| ==> r.slots[i].health == g.slots[i].health)
    && (forall j :: 0 <= j < h ==>
          r.slots[At(|g.slots|, g.cursor, d[j])].inflight == load + Turns(h, t, j))
    && r.cursor == At(|g.slots|, g.cursor, if t == 0 then 0 else d[(t - 1) % h] + 1)
  }

  /** In such a state the healthy offsets with the least load are those from `t % h` on. */
  lemma LeastInTurn(g: Ring, load: int, t: nat, r: Ring, x: nat)
    requires g.Formed() && InTurn(g, load, t, r) && x < |g.slots|
    ensures var d := HealthyOffsets(g, |g.slots|);
      LeastLoaded(r.slots, At(|g.slots|, g.cursor, x)) <==> exists j :: t % |d| <= j < |d| && d[j] == x
  {
    var n, d := |g.slots|, HealthyOffsets(g, |g.slots|);
    HealthyOffsetsExact(g, n, x);
    forall i | 0 <= i < n && r.slots[i].health.Healthy? ensures
      exists j :: 0 <= j < |d| && At(n, g.cursor, d[j]) == i
    {
      HealthyOffsetsExact(g, n, OffsetOf(n, g.cursor, i));
    }
    var least := t % |d|;
    assert r.slots[At(n, g.cursor, d[least])].inflight == load + t / |d|;
    HealthyOffsetsExact(g, n, d[least]);
  }

  /** The next unit selection takes backend number `t % h` of the cycle. */
  lemma NextInTurn(g: Ring, load: int, t: nat, r: Ring)
    requires g.Formed() && InTurn(g, load, t, r)
    ensures Cycle(g) != [] && Chosen(r.slots, r.cursor) == Some(Cycle(g)[t % |Cycle(g)|])
  {
    hide At, LeastLoaded, HealthyOffsets, Turns;
    var n, d := |g.slots|, HealthyOffsets(g, |g.slots|);
    var k := t % |d|;
    var e := if t == 0 then 0 else d[(t - 1) % |d|] + 1;
    Previous(t, |d|);
    var at := if e <= d[k] then d[k] - e else n - e + d[k];
    Shift(n, g.cursor, e, at);
    LeastInTurn(g, load, t, r, d[k]);
    forall y | 0 <= y < at ensures !LeastLoaded(r.slots, At(n, r.cursor, y)) {
      Shift(n, g.cursor, e, y);
      LeastInTurn(g, load, t, r, if e + y < n then e + y else e + y - n);
    }
    SearchStops(r.slots, r.cursor, 0, at);
  }

  lemma AtLeastOnce(h: int, k: int)
    requires h > 0
    ensures k >= 1 ==> h * k >= h
    ensures k <= -1 ==> h * k <= -h
  {
  }

  lemma QuotientIs(t: int, h: int, q: int, m: int)
    requires 0 <= m < h && t == h * q + m
    ensures t / h == q && t % h == m
  {
    var a, b := t / h, t % h;
    assert t == h * a + b;
    AtLeastOnce(h, q - a);
    assert h * (q - a) == h * q - h * a;
  }

  lemma Previous(t: nat, h: nat)
    requires h > 0
    ensures t > 0 && t % h > 0 ==> (t - 1) % h == t % h - 1
    ensures t > 0 && t % h == 0 ==> (t - 1) % h == h - 1
    ensures t % h == h - 1 ==> (t + 1) / h == t / h + 1 && (t + 1) % h == 0
    ensures t % h < h - 1 ==> (t + 1) / h == t / h && (t + 1) % h == t % h + 1
  {
    var q, m := t / h, t % h;
    assert t == h * q + m;
    if m > 0 {
      QuotientIs(t - 1, h, q, m - 1);
    } else {
      QuotientIs(t - 1, h, q - 1, h - 1);
    }
    if m < h - 1 {
      QuotientIs(t + 1, h, q, m + 1);
    } else {
      QuotientIs(t + 1, h, q + 1, 0);
    }
  }

  lemma OnesGrow(t: nat)
    requires t > 0
    ensures Ones(t)[..|Ones(t)| - 1] == Ones(t - 1)
  {
  }

  lemma NextPlace(n: nat, cursor: nat, x: nat)
    requires cursor < n && x < n
    ensures (At(n, cursor, x) + 1) % n == At(n, cursor, x + 1)
  {
    Wrap(n, cursor + x);
    Wrap(n, At(n, cursor, x) + 1);
    Wrap(n, cursor + x + 1);
  }

  /** Counting one more selection raises the count of exactly one place of the cycle. */
  lemma TurnAdvances(h: nat, t: nat, j: nat)
    requires j < h
    ensures Turns(h, t + 1, j) == Turns(h, t, j) + if j == t % h then 1 else 0
  {
    Previous(t, h);
  }

  lemma StaysInTurn(g: Ring, load: int, t: nat, r: Ring)
    requires g.Formed() && r.Formed() && InTurn(g, load, t, r)
    ensures InTurn(g, load, t + 1, Selected(r, 1))
  {
    hide At, Search, Chosen, LeastLoaded, HealthyOffsets, Turns;
    var n, d := |g.slots|, HealthyOffsets(g, |g.slots|);
    var k := t % |d|;
    NextInTurn(g, load, t, r);
    forall j | 0 <= j < |d| && j != k ensures At(n, g.cursor, d[j]) != At(n, g.cursor, d[k]) {
      if j < k {
        OffsetsDiffer(n, g.cursor, d[j], d[k]);
      } else {
        OffsetsDiffer(n, g.cursor, d[k], d[j]);
      }
    }
    NextPlace(n, g.cursor, d[k]);
    var next := Selected(r, 1);
    assert next == Ring(AddLoad(r.slots, At(n, g.cursor, d[k]), 1), At(n, g.cursor, d[k] + 1));
    forall j | 0 <= j < |d| ensures
      next.slots[At(n, g.cursor, d[j])].inflight == load + Turns(|d|, t + 1, j)
    {
      TurnAdvances(|d|, t, j);
    }
  }

  lemma StartsInTurn(g: Ring, load: int)
    requires g.Formed() && AnyHealthy(g.slots)
    requires forall i :: 0 <= i < |g.slots| && g.slots[i].health.Healthy? ==> g.slots[i].inflight == load
    ensures InTurn(g, load, 0, g)
  {
    hide HealthyOffsets, LeastLoaded;
    var n, d := |g.slots|, HealthyOffsets(g, |g.slots|);
    var i :| 0 <= i < n && g.slots[i].health.Healthy?;
    HealthyOffsetsExact(g, n, OffsetOf(n, g.cursor, i));
    forall j | 0 <= j < |d| ensures g.slots[At(n, g.cursor, d[j])].health.Healthy? {
      HealthyOffsetsExact(g, n, d[j]);
    }
    Wrap(n, g.cursor);
    QuotientIs(0, |d|, 0, 0);
  }

  /** From equal loads, unit selections visit the healthy backends in exact cyclic order,
      round after round. */
  lemma {:induction false} RoundRobin(g: Ring, load: int, t: nat)
    requires g.Formed() && AnyHealthy(g.slots)
    requires forall i :: 0 <= i < |g.slots| && g.slots[i].health.Healthy? ==> g.slots[i].inflight == load
    ensures InTurn(g, load, t, SelectedAll(g, Ones(t))) && Cycle(g) != []
    ensures var r := SelectedAll(g, Ones(t)); Chosen(r.slots, r.cursor) == Some(Cycle(g)[t % |Cycle(g)|])
  {
    hide InTurn, AnyHealthy, Chosen, Cycle, Selected;
    if t == 0 {
      StartsInTurn(g, load);
    } else {
      RoundRobin(g, load, t - 1);
      OnesGrow(t);
      StaysInTurn(g, load, t - 1, SelectedAll(g, Ones(t - 1)));
    }
    NextInTurn(g, load, t, SelectedAll(g, Ones(t)));
  }

  /** The cycle holds every healthy backend exactly once. */
  lemma CycleIsComplete(g: Ring)
    requires g.Formed()
    ensures NoDup(Cycle(g))
    ensures forall i :: 0 <= i < |g.slots| ==> (i in Cycle(g) <==> g.slots[i].health.Healthy?)
  {
    var n, d := |g.slots|, HealthyOffsets(g, |g.slots|);
    forall j, k | 0 <= j < k < |d| ensures Cycle(g)[j] != Cycle(g)[k] {
      OffsetsDiffer(n, g.cursor, d[j], d[k]);
    }
    forall i | 0 <= i < n ensures i in Cycle(g) <==> g.slots[i].health.Healthy? {
      var x := OffsetOf(n, g.cursor, i);
      HealthyOffsetsExact(g, n, x);
      if x in d {
        assert Cycle(g)[IndexOf(d, x)] == i;
      }
      if i in Cycle(g) {
        var j := IndexOf(Cycle(g), i);
        HealthyOffsetsExact(g, n, d[j]);
      }
    }
  }
}
