/** The batcher's master invariant and its preservation by every step. */
module BatcherInvariant {
  import opened Collections
  import opened Compatibility
  import opened BatcherModel

  /** A group in the map is non-empty, holds nobody twice, and has the one armed timer
      that was armed when it was created; no other group has an armed timer. */
  ghost predicate Groups(s: State) {
    && (forall k :: k in s.groups ==> s.groups[k] < |s.batches| && s.batches[s.groups[k]].key == k)
    && (forall b :: 0 <= b < |s.batches| ==> (Collecting(s, b) <==> s.batches[b].timer.Armed?))
    && (forall b :: 0 <= b < |s.batches| && s.batches[b].timer.Armed? ==>
          s.batches[b].members != [] && NoDup(s.batches[b].members) && s.batches[b].armedAt <= s.now)
  }

  predicate WaitsIn(s: State, i: nat, b: nat)
    requires b < |s.batches|
  {
    && i < |s.items| && s.items[i].state.Pending? && s.items[i].Key() == s.batches[b].key
    && s.batches[b].armedAt <= s.items[i].submittedAt
  }

  predicate WaitsSomewhere(s: State, i: nat)
    requires i < |s.items|
  {
    && s.items[i].Key() in s.groups
    && s.groups[s.items[i].Key()] < |s.batches|
    && i in s.batches[s.groups[s.items[i].Key()]].members
  }

  /** The members of the groups are exactly the pending items, each in the group of its key. */
  ghost predicate Waiting(s: State) {
    && (forall b, j :: 0 <= b < |s.batches| && s.batches[b].timer.Armed? && 0 <= j < |s.batches[b].members| ==>
          WaitsIn(s, s.batches[b].members[j], b))
    && (forall i :: 0 <= i < |s.items| && s.items[i].state.Pending? ==> WaitsSomewhere(s, i))
  }

  function LiveSize(): Group -> int { (g: Group) => if g.timer.Armed? then |g.members| else 0 }

  ghost predicate Counted(s: State) {
    && s.pending == Total(s.items, IsPending())
    && s.pending == Total(s.batches, LiveSize())
    && s.inflight == Total(s.ops, IsOpen())
  }

  predicate Fits(state: ItemState, phase: Phase) {
    state.Cancelled? || if phase.Created? || phase.Running? then state.Dispatched? else state.Completed?
  }

  /** The life of a flush operation; it is counted down once, when it finishes. */
  predicate Lived(op: Op) {
    && op.members != []
    && op.decrements == (if op.phase.Finished? then 1 else 0)
    && (op.phase.Created? ==> !op.started && op.outcome.None?)
    && (op.phase.Running? ==> op.started && op.outcome.None?)
    && (op.phase.Settled? ==> op.started && op.outcome.Some?)
    && (op.phase.Finished? ==> op.started == op.outcome.Some?)
  }

  predicate Placed(s: State, i: nat, o: nat, p: nat) {
    && i < |s.items| && o < |s.ops| && p < |s.ops[o].members|
    && s.items[i].place == At(o, p) && s.ops[o].members[p] == i
  }

  /** Items and the positions in flush operations point at each other. */
  ghost predicate Flushes(s: State) {
    && (forall o :: 0 <= o < |s.ops| ==> Lived(s.ops[o]))
    && (forall o, p :: 0 <= o < |s.ops| && 0 <= p < |s.ops[o].members| ==>
          Placed(s, s.ops[o].members[p], o, p) && Fits(s.items[s.ops[o].members[p]].state, s.ops[o].phase))
    && (forall i :: 0 <= i < |s.items| && s.items[i].place.At? ==>
          Placed(s, i, s.items[i].place.op, s.items[i].place.position))
    && (forall i :: 0 <= i < |s.items| ==>
          (s.items[i].state.Pending? ==> s.items[i].place.Nowhere?)
          && (s.items[i].state.Dispatched? ==> s.items[i].place.At?))
  }

  /** An item is in a terminal state exactly when its future is done, and cancelled exactly
      when its future was. */
  ghost predicate Futures(s: State) {
    forall i :: 0 <= i < |s.items| ==>
      && (s.items[i].state.Completed? || s.items[i].state.Cancelled? <==> s.items[i].future.Done())
      && (s.items[i].state.Cancelled? <==> s.items[i].future.Aborted?)
  }

  /** A result is the response at the item's own position of its own flush operation. */
  predicate DeliveredOwn(s: State, i: nat)
    requires i < |s.items|
  {
    && s.items[i].place.At? && s.items[i].place.op < |s.ops|
    && var op := s.ops[s.items[i].place.op];
    && op.outcome.Some? && op.outcome.value.Returned?
    && |op.outcome.value.responses| == |op.members|
    && s.items[i].place.position < |op.members|
    && s.items[i].future == Resolved(op.outcome.value.responses[s.items[i].place.position])
  }

  ghost predicate Delivery(s: State) {
    forall i :: 0 <= i < |s.items| && s.items[i].future.Resolved? ==> DeliveredOwn(s, i)
  }

  /** The members of a flush operation share one key, and every request is an eligible one. */
  ghost predicate Compatible(s: State) {
    && (forall o, p :: 0 <= o < |s.ops| && 0 <= p < |s.ops[o].members| ==>
          && s.ops[o].members[p] < |s.items| && s.ops[o].members[0] < |s.items|
          && s.items[s.ops[o].members[p]].Key() == s.items[s.ops[o].members[0]].Key())
    && (forall i :: 0 <= i < |s.items| ==>
          s.items[i].request.Validated() && BatchingEligibility(s.items[i].request, true).Eligible?)
  }

  ghost predicate Clocked(s: State) {
    forall i :: 0 <= i < |s.items| ==> s.items[i].submittedAt <= s.now
  }

  ghost predicate ClosedDown(s: State) {
    s.closed ==> s.groups == map[] && forall o :: 0 <= o < |s.ops| ==> !s.ops[o].phase.Created?
  }

  ghost predicate Inv(s: State)
    ensures Inv(s) ==> Shaped(s) && !s.fault
  {
    && Shaped(s) && Groups(s) && Waiting(s) && Counted(s) && Flushes(s) && Futures(s)
    && Delivery(s) && Compatible(s) && Clocked(s) && ClosedDown(s) && !s.fault
  }

  /** Every group in the map is still below the maximum size; no flush exceeds it. */
  ghost predicate Room(c: Config, s: State) {
    && (forall b :: 0 <= b < |s.batches| && s.batches[b].timer.Armed? ==> |s.batches[b].members| < c.maxSize)
    && (forall o :: 0 <= o < |s.ops| ==> |s.ops[o].members| <= c.maxSize)
  }

  // ---------------------------------------------------------------- updating members

  lemma UpdateAt(items: seq<Item>, ids: seq<nat>, f: (Item, nat) -> Item, p: nat)
    requires NoDup(ids) && p < |ids| && ids[p] < |items|
    ensures UpdateAll(items, ids, f)[ids[p]] == f(items[ids[p]], p)
  {
    assert ids[p] in ids;
    assert ids[IndexOf(ids, ids[p])] == ids[p];
  }

  lemma UpdateNone(items: seq<Item>, ids: seq<nat>, f: (Item, nat) -> Item)
    ensures UpdateAll(items, ids[..0], f) == items
  {
  }

  /** Updating all members is updating them one after the other. */
  lemma UpdateStep(items: seq<Item>, ids: seq<nat>, f: (Item, nat) -> Item, p: nat)
    requires NoDup(ids) && p < |ids| && ids[p] < |items|
    ensures UpdateAll(items, ids[..p], f)[ids[p]] == items[ids[p]]
    ensures UpdateAll(items, ids[..p + 1], f)
         == UpdateAll(items, ids[..p], f)[ids[p] := f(items[ids[p]], p)]
  {
    var i := ids[p];
    var l, r := UpdateAll(items, ids[..p + 1], f), UpdateAll(items, ids[..p], f)[i := f(items[i], p)];
    assert i !in ids[..p];
    UpdateAt(items, ids[..p + 1], f, p);
    forall k: nat | k < |items| ensures l[k] == r[k] {
      if k != i {
        assert k in ids[..p + 1] <==> k in ids[..p];
        if k in ids[..p] {
          var q := IndexOf(ids[..p], k);
          UpdateAt(items, ids[..p], f, q);
          UpdateAt(items, ids[..p + 1], f, q);
        }
      }
    }
  }

  lemma {:induction false} DispatchTotal(items: seq<Item>, ids: seq<nat>, f: (Item, nat) -> Item, n: nat)
    requires NoDup(ids) && n <= |ids| && forall p :: 0 <= p < |ids| ==> ids[p] < |items| && items[ids[p]].state.Pending?
    requires forall it, p :: !f(it, p).state.Pending?
    ensures Total(UpdateAll(items, ids[..n], f), IsPending()) == Total(items, IsPending()) - n
  {
    if n == 0 {
      assert UpdateAll(items, ids[..0], f) == items;
    } else {
      DispatchTotal(items, ids, f, n - 1);
      UpdateStep(items, ids, f, n - 1);
      TotalUpdate(UpdateAll(items, ids[..n - 1], f), ids[n - 1], f(items[ids[n - 1]], n - 1), IsPending());
    }
  }

  // ---------------------------------------------------------------- detaching a group

  /** A group in the map is what `Groups` says it is. */
  lemma CollectingGroup(s: State, b: nat)
    requires Groups(s) && b < |s.batches| && Collecting(s, b)
    ensures s.batches[b].timer.Armed? && s.batches[b].members != [] && NoDup(s.batches[b].members)
  {
  }

  lemma MembersPending(s: State, b: nat)
    requires Shaped(s) && Groups(s) && Waiting(s) && b < |s.batches| && Collecting(s, b)
    ensures forall j :: 0 <= j < |s.batches[b].members| ==> WaitsIn(s, s.batches[b].members[j], b)
    ensures forall i :: i in s.batches[b].members ==> WaitsIn(s, i, b)
    ensures !AnyMember(s.items, s.batches[b].members, NotPending())
  {
    hide CompatibilityKey;
    var ids := s.batches[b].members;
    forall j | 0 <= j < |ids| ensures WaitsIn(s, ids[j], b) {
    }
  }

  /** The state a detached group leaves. */
  lemma DetachIs(s: State, b: nat, reason: FlushReason)
    requires Inv(s) && b < |s.batches| && Collecting(s, b)
    ensures var g := s.batches[b];
      && !AnyMember(s.items, g.members, NotPending()) && g.members != [] && NoDup(g.members)
      && Detach(s, b, reason) == s.(groups := s.groups - {g.key},
           batches := s.batches[b := g.(timer := if reason.Timeout? then Fired else Disarmed)],
           items := UpdateAll(s.items, g.members, AsDispatched(|s.ops|)),
           pending := s.pending - |g.members|,
           inflight := s.inflight + 1,
           ops := s.ops + [Op(g.members, reason, Created, false, None, 0)])
  {
    MembersPending(s, b);
    CollectingGroup(s, b);
  }

  lemma DetachGroups(s: State, b: nat, reason: FlushReason)
    requires Inv(s) && b < |s.batches| && Collecting(s, b)
    ensures Groups(Detach(s, b, reason))
  {
    hide CompatibilityKey, Waiting, Counted, Flushes, Futures, Delivery, Compatible, Clocked, ClosedDown,
      UpdateAll, AnyMember, Detach;
    DetachIs(s, b, reason);
    var r := Detach(s, b, reason);
    forall x | 0 <= x < |r.batches| ensures Collecting(r, x) <==> r.batches[x].timer.Armed? {
      assert r.batches[x].key == s.batches[x].key;
    }
  }

  lemma DetachWaiting(s: State, b: nat, reason: FlushReason)
    requires Inv(s) && b < |s.batches| && Collecting(s, b)
    ensures Waiting(Detach(s, b, reason))
  {
    hide CompatibilityKey, Flushes, Futures, Delivery, Compatible, Clocked, ClosedDown, Counted, AnyMember, Detach;
    DetachIs(s, b, reason);
    MembersPending(s, b);
    var r, ids := Detach(s, b, reason), s.batches[b].members;
    forall x, j | 0 <= x < |r.batches| && r.batches[x].timer.Armed? && 0 <= j < |r.batches[x].members|
      ensures WaitsIn(r, r.batches[x].members[j], x)
    {
      var i := r.batches[x].members[j];
      assert WaitsIn(s, i, x);
    }
    forall i | 0 <= i < |r.items| && r.items[i].state.Pending? ensures WaitsSomewhere(r, i) {
      assert WaitsSomewhere(s, i) && i !in ids;
    }
  }

  lemma DetachCounted(s: State, b: nat, reason: FlushReason)
    requires Inv(s) && b < |s.batches| && Collecting(s, b)
    ensures Counted(Detach(s, b, reason))
  {
    hide CompatibilityKey, Flushes, Futures, Delivery, Compatible, Clocked, ClosedDown, AnyMember, Detach;
    DetachIs(s, b, reason);
    MembersPending(s, b);
    var r, ids := Detach(s, b, reason), s.batches[b].members;
    assert ids[..|ids|] == ids;
    DispatchTotal(s.items, ids, AsDispatched(|s.ops|), |ids|);
    TotalUpdate(s.batches, b, r.batches[b], LiveSize());
    TotalAppend(s.ops, r.ops[|s.ops|], IsOpen());
  }

  lemma DetachFlushes(s: State, b: nat, reason: FlushReason)
    requires Inv(s) && b < |s.batches| && Collecting(s, b)
    ensures Flushes(Detach(s, b, reason))
  {
    hide CompatibilityKey, Futures, Delivery, Compatible, Clocked, ClosedDown, Counted, AnyMember, Detach;
    DetachIs(s, b, reason);
    MembersPending(s, b);
    var r, ids := Detach(s, b, reason), s.batches[b].members;
    var o := |s.ops|;
    forall i | 0 <= i < |r.items| ensures
      && (i in ids ==> r.items[i] == s.items[i].(state := Dispatched, place := At(o, IndexOf(ids, i))))
      && (i !in ids ==> r.items[i] == s.items[i])
    {
      if i in ids {
        UpdateAt(s.items, ids, AsDispatched(o), IndexOf(ids, i));
      }
    }
    forall p | 0 <= p < |ids| ensures Placed(r, ids[p], o, p) && r.items[ids[p]].state.Dispatched? {
      UpdateAt(s.items, ids, AsDispatched(o), p);
    }
    forall x, p | 0 <= x < |r.ops| && 0 <= p < |r.ops[x].members|
      ensures Placed(r, r.ops[x].members[p], x, p) && Fits(r.items[r.ops[x].members[p]].state, r.ops[x].phase)
    {
      if x < o {
        var i := s.ops[x].members[p];
        assert Placed(s, i, x, p);
        NotAMember(s, b, i);
      }
    }
    forall i | 0 <= i < |r.items| && r.items[i].place.At?
      ensures Placed(r, i, r.items[i].place.op, r.items[i].place.position)
    {
      if i !in ids {
        assert Placed(s, i, s.items[i].place.op, s.items[i].place.position);
      }
    }
  }

  /** An item with a place waits in no group. */
  lemma NotAMember(s: State, b: nat, i: nat)
    requires Inv(s) && b < |s.batches| && Collecting(s, b) && i < |s.items| && s.items[i].place.At?
    ensures i !in s.batches[b].members
  {
    hide CompatibilityKey;
    MembersPending(s, b);
  }

  lemma DetachRest(s: State, b: nat, reason: FlushReason)
    requires Inv(s) && b < |s.batches| && Collecting(s, b) && !s.closed
    ensures var r := Detach(s, b, reason);
      Futures(r) && Delivery(r) && Compatible(r) && Clocked(r) && ClosedDown(r)
  {
    hide CompatibilityKey, Counted, AnyMember, Detach;
    DetachIs(s, b, reason);
    MembersPending(s, b);
    var r, ids := Detach(s, b, reason), s.batches[b].members;
    forall i | 0 <= i < |r.items| ensures
      && r.items[i].future == s.items[i].future && r.items[i].Key() == s.items[i].Key()
      && r.items[i].request == s.items[i].request && r.items[i].submittedAt == s.items[i].submittedAt
      && (i in ids ==> s.items[i].state.Pending? && r.items[i].state.Dispatched?)
      && (i !in ids ==> r.items[i] == s.items[i])
    {
      if i in ids {
        var j :| 0 <= j < |ids| && ids[j] == i;
        assert WaitsIn(s, ids[j], b);
      }
    }
    forall p | 0 <= p < |ids| ensures r.items[ids[p]].Key() == r.items[ids[0]].Key() {
      assert WaitsIn(s, ids[p], b) && WaitsIn(s, ids[0], b);
    }
  }

  lemma DetachKeeps(s: State, b: nat, reason: FlushReason)
    requires Inv(s) && b < |s.batches|
    ensures Inv(Detach(s, b, reason))
  {
    hide Groups, Waiting, Counted, Flushes, Futures, Delivery, Compatible, Clocked, UpdateAll;
    if Collecting(s, b) {
      DetachGroups(s, b, reason);
      DetachWaiting(s, b, reason);
      DetachCounted(s, b, reason);
      DetachFlushes(s, b, reason);
      DetachRest(s, b, reason);
      DetachIs(s, b, reason);
    }
  }

  // ---------------------------------------------------------------- submitting

  /** The item joins the group of its key, which is created if need be. */
  function Joined(s: State, it: Item): (r: State)
    requires Shaped(s)
    ensures Shaped(r) && it.Key() in r.groups
  {
    var collecting := Open(s, it.Key());
    Join(collecting, collecting.groups[it.Key()], it)
  }

  function TargetGroup(s: State, it: Item): nat
    requires Shaped(s)
  {
    Open(s, it.Key()).groups[it.Key()]
  }

  /** The joined state, the same whether the group was new or not. */
  lemma JoinedIs(s: State, it: Item)
    requires Shaped(s) && Groups(s)
    ensures var r := Joined(s, it); var b := TargetGroup(s, it);
      && (it.Key() in s.groups ==>
            && b < |s.batches| && b == s.groups[it.Key()]
            && r.batches == s.batches[b := s.batches[b].(members := s.batches[b].members + [|s.items|])]
            && r.groups == s.groups)
      && (it.Key() !in s.groups ==>
            && b == |s.batches|
            && r.batches == s.batches + [Group(it.Key(), [|s.items|], Armed, s.now)]
            && r.groups == s.groups[it.Key() := b])
      && b < |r.batches| && Collecting(r, b) && r.batches[b].key == it.Key()
      && r == s.(items := s.items + [it], pending := s.pending + 1, batches := r.batches, groups := r.groups)
  {
    hide CompatibilityKey;
    assert [] + [|s.items|] == [|s.items|];
  }

  lemma JoinedGroups(s: State, it: Item)
    requires Inv(s)
    ensures Groups(Joined(s, it))
  {
    hide CompatibilityKey, Counted, Flushes, Futures, Delivery, Compatible, Clocked, ClosedDown, Joined, TargetGroup;
    JoinedIs(s, it);
    var r, b := Joined(s, it), TargetGroup(s, it);
    forall x | 0 <= x < |r.batches| ensures Collecting(r, x) <==> r.batches[x].timer.Armed? {
      if x < |s.batches| {
        assert r.batches[x].key == s.batches[x].key && r.batches[x].timer == s.batches[x].timer;
        assert Collecting(s, x) <==> s.batches[x].timer.Armed?;
      }
    }
    if it.Key() in s.groups {
      CollectingGroup(s, b);
      assert |s.items| !in s.batches[b].members;
    }
  }

  lemma JoinedWaiting(s: State, it: Item)
    requires Inv(s) && it.state.Pending? && it.submittedAt == s.now
    ensures Waiting(Joined(s, it))
  {
    hide CompatibilityKey, Counted, Flushes, Futures, Delivery, Compatible, Clocked, ClosedDown, Joined, TargetGroup;
    JoinedIs(s, it);
    var r, b := Joined(s, it), TargetGroup(s, it);
    assert r.batches[b].members[|r.batches[b].members| - 1] == |s.items|;
    assert it.Key() in s.groups ==> s.batches[b].armedAt <= s.now;
    forall x, j | 0 <= x < |r.batches| && r.batches[x].timer.Armed? && 0 <= j < |r.batches[x].members|
      ensures WaitsIn(r, r.batches[x].members[j], x)
    {
      if x < |s.batches| && j < |s.batches[x].members| {
        assert WaitsIn(s, s.batches[x].members[j], x);
      }
    }
    forall i | 0 <= i < |r.items| && r.items[i].state.Pending? ensures WaitsSomewhere(r, i) {
      if i < |s.items| {
        assert WaitsSomewhere(s, i);
        var x := s.groups[s.items[i].Key()];
        assert r.groups[s.items[i].Key()] == x;
        assert i in s.batches[x].members;
      }
    }
  }

  lemma JoinedCounted(s: State, it: Item)
    requires Inv(s) && it.state.Pending?
    ensures Counted(Joined(s, it))
  {
    hide CompatibilityKey, Waiting, Flushes, Futures, Delivery, Compatible, Clocked, ClosedDown, Joined, TargetGroup;
    JoinedIs(s, it);
    var r, b := Joined(s, it), TargetGroup(s, it);
    TotalAppend(s.items, it, IsPending());
    if it.Key() in s.groups {
      CollectingGroup(s, b);
      TotalUpdate(s.batches, b, r.batches[b], LiveSize());
    } else {
      TotalAppend(s.batches, r.batches[b], LiveSize());
    }
  }

  lemma JoinedRest(s: State, it: Item)
    requires Inv(s) && !s.closed
    requires it.state.Pending? && it.future.Unresolved? && it.place.Nowhere? && it.submittedAt == s.now
    requires it.request.Validated() && BatchingEligibility(it.request, true).Eligible?
    ensures var r := Joined(s, it); Futures(r) && Delivery(r) && Compatible(r) && Clocked(r) && ClosedDown(r)
  {
    hide CompatibilityKey, Groups, Waiting, Counted, Flushes, Joined, TargetGroup;
    JoinedOps(s, it);
    var r := Joined(s, it);
    forall i | 0 <= i < |r.items| && r.items[i].future.Resolved? ensures DeliveredOwn(r, i) {
      assert DeliveredOwn(s, i);
    }
  }

  lemma JoinedFlushes(s: State, it: Item)
    requires Inv(s) && it.state.Pending? && it.place.Nowhere?
    ensures Flushes(Joined(s, it))
  {
    hide CompatibilityKey, Groups, Waiting, Counted, Futures, Delivery, Compatible, Clocked, ClosedDown, Joined;
    JoinedOps(s, it);
    var r := Joined(s, it);
    forall o, p | 0 <= o < |r.ops| && 0 <= p < |r.ops[o].members|
      ensures Placed(r, r.ops[o].members[p], o, p) && Fits(r.items[r.ops[o].members[p]].state, r.ops[o].phase)
    {
      assert Placed(s, s.ops[o].members[p], o, p);
    }
    forall i | 0 <= i < |r.items| && r.items[i].place.At?
      ensures Placed(r, i, r.items[i].place.op, r.items[i].place.position)
    {
      assert Placed(s, i, s.items[i].place.op, s.items[i].place.position);
    }
  }

  lemma JoinedOps(s: State, it: Item)
    requires Inv(s)
    ensures var r := Joined(s, it);
      r.ops == s.ops && r.items == s.items + [it] && r.now == s.now && r.closed == s.closed
  {
  }

  lemma JoinedKeeps(s: State, it: Item)
    requires Inv(s) && !s.closed
    requires it.state.Pending? && it.future.Unresolved? && it.place.Nowhere? && it.submittedAt == s.now
    requires it.request.Validated() && BatchingEligibility(it.request, true).Eligible?
    ensures Inv(Joined(s, it)) && TargetGroup(s, it) < |Joined(s, it).batches|
  {
    hide CompatibilityKey, Groups, Waiting, Counted, Flushes, Futures, Delivery, Compatible, Clocked, ClosedDown;
    JoinedGroups(s, it);
    JoinedWaiting(s, it);
    JoinedCounted(s, it);
    JoinedFlushes(s, it);
    JoinedRest(s, it);
  }

  /** Every new member joins below the maximum, and a full group leaves the map at once. */
  lemma SubmitKeeps(c: Config, s: State, tenant: string, request: Request)
    requires Inv(s) && Room(c, s) && c.Accepted()
    requires request.Validated() && BatchingEligibility(request, true).Eligible?
    ensures Inv(Submit(c, s, tenant, request)) && Room(c, Submit(c, s, tenant, request))
  {
    hide CompatibilityKey, Waiting, Counted, Flushes, Futures, Delivery, Compatible, Clocked, ClosedDown;
    if !s.closed {
      var it := Item(tenant, request, s.now, Pending, Unresolved, Nowhere);
      JoinedKeeps(s, it);
      JoinedIs(s, it);
      var r, b := Joined(s, it), TargetGroup(s, it);
      if |r.batches[b].members| >= c.maxSize {
        DetachIs(r, b, Size);
        DetachKeeps(r, b, Size);
      }
    }
  }
}
