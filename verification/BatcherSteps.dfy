/** The remaining steps of the batcher keep the master invariant, and so does every run. */
module BatcherSteps {
  import opened Collections
  import opened Compatibility
  import opened BatcherModel
  import opened BatcherInvariant

  ghost predicate Good(c: Config, s: State)
    ensures Good(c, s) ==> Inv(s) && Room(c, s)
  {
    Inv(s) && Room(c, s)
  }

  lemma InitialGood(c: Config)
    ensures Good(c, INITIAL)
  {
  }

  // ---------------------------------------------------------------- backend results

  /** The state before a settlement: every member is dispatched or cancelled, none twice. */
  lemma RunningMembers(s: State, o: nat)
    requires Inv(s) && o < |s.ops| && s.ops[o].phase.Running?
    ensures var ids := s.ops[o].members;
      && NoDup(ids) && !AnyMember(s.items, ids, NotDispatched())
      && forall p :: 0 <= p < |ids| ==> Placed(s, ids[p], o, p) && Fits(s.items[ids[p]].state, Running)
  {
    hide CompatibilityKey, Groups, Waiting, Counted, Delivery, Compatible, Clocked, ClosedDown;
    var ids := s.ops[o].members;
    forall p, q | 0 <= p < q < |ids| ensures ids[p] != ids[q] {
      assert Placed(s, ids[p], o, p) && Placed(s, ids[q], o, q);
    }
    forall p | 0 <= p < |ids| ensures !NotDispatched()(s.items[ids[p]]) {
      assert Placed(s, ids[p], o, p);
    }
  }

  /** What a settlement may do to a member. */
  predicate SettlesTo(it: Item, r: Item, f: Future) {
    if it.state.Cancelled? then r == it else r == it.(state := Completed, future := f)
  }

  function FutureOf(s: State, o: nat, outcome: Outcome, p: nat): Future
    requires o < |s.ops|
  {
    if outcome.Returned? && |outcome.responses| == |s.ops[o].members| && p < |outcome.responses|
    then Resolved(outcome.responses[p])
    else Failed(if outcome.Interrupted? then BatchingUnavailable else UpstreamFailure)
  }

  lemma SettleIs(s: State, o: nat, outcome: Outcome)
    requires Inv(s) && o < |s.ops| && s.ops[o].phase.Running?
    ensures var r := SettleOp(s, o, outcome); var ids := s.ops[o].members;
      && r == s.(items := r.items, ops := s.ops[o := s.ops[o].(phase := Settled, outcome := Some(outcome))])
      && |r.items| == |s.items|
      && (forall i :: 0 <= i < |s.items| && i !in ids ==> r.items[i] == s.items[i])
      && (forall p :: 0 <= p < |ids| ==>
            ids[p] < |s.items| && SettlesTo(s.items[ids[p]], r.items[ids[p]], FutureOf(s, o, outcome, p)))
  {
    hide CompatibilityKey, Groups, Waiting, Counted, Delivery, Compatible, Clocked, ClosedDown, AnyMember;
    RunningMembers(s, o);
    var op := s.ops[o];
    var f :=
      if outcome.Returned? && |outcome.responses| == |op.members| then Delivered(outcome.responses)
      else FailedWith(if outcome.Interrupted? then BatchingUnavailable else UpstreamFailure);
    forall p | 0 <= p < |op.members|
      ensures SettlesTo(s.items[op.members[p]], UpdateAll(s.items, op.members, f)[op.members[p]], FutureOf(s, o, outcome, p))
    {
      assert Placed(s, op.members[p], o, p);
      UpdateAt(s.items, op.members, f, p);
    }
  }

  /** Items outside the settled operation are untouched; members keep everything but state and future. */
  lemma SettleItem(s: State, o: nat, outcome: Outcome, i: nat)
    requires Inv(s) && o < |s.ops| && s.ops[o].phase.Running? && i < |s.items|
    ensures var a := s.items[i]; var b := SettleOp(s, o, outcome).items[i];
      && b == a.(state := b.state, future := b.future)
      && (a.place.At? && a.place.op == o && a.state.Dispatched? ==>
            a.place.position < |s.ops[o].members| && b.state.Completed?
            && b.future == FutureOf(s, o, outcome, a.place.position))
      && (!(a.place.At? && a.place.op == o && a.state.Dispatched?) ==> b == a)
  {
    hide CompatibilityKey, Groups, Waiting, Counted, Futures, Delivery, Compatible, Clocked, ClosedDown, SettleOp;
    RunningMembers(s, o);
    SettleIs(s, o, outcome);
    var ids := s.ops[o].members;
    if i in ids {
      var p :| 0 <= p < |ids| && ids[p] == i;
      assert Placed(s, ids[p], o, p);
    } else if s.items[i].place.At? {
      assert Placed(s, i, s.items[i].place.op, s.items[i].place.position);
    }
  }

  lemma SettleWaiting(s: State, o: nat, outcome: Outcome)
    requires Inv(s) && o < |s.ops| && s.ops[o].phase.Running?
    ensures var r := SettleOp(s, o, outcome); Groups(r) && Waiting(r) && Counted(r) && Clocked(r) && Compatible(r)
  {
    hide CompatibilityKey, Flushes, Futures, Delivery, ClosedDown, SettleOp;
    SettleIs(s, o, outcome);
    var r := SettleOp(s, o, outcome);
    forall i | 0 <= i < |s.items| ensures
      && r.items[i].Key() == s.items[i].Key() && r.items[i].submittedAt == s.items[i].submittedAt
      && r.items[i].request == s.items[i].request && (r.items[i].state.Pending? <==> s.items[i].state.Pending?)
    {
      SettleItem(s, o, outcome, i);
    }
    TotalCongruence(s.items, IsPending(), r.items, IsPending());
    TotalUpdate(s.ops, o, r.ops[o], IsOpen());
    forall b, j | 0 <= b < |r.batches| && r.batches[b].timer.Armed? && 0 <= j < |r.batches[b].members|
      ensures WaitsIn(r, r.batches[b].members[j], b)
    {
      assert WaitsIn(s, s.batches[b].members[j], b);
    }
    forall i | 0 <= i < |r.items| && r.items[i].state.Pending? ensures WaitsSomewhere(r, i) {
      assert WaitsSomewhere(s, i);
    }
  }

  lemma SettleFlushes(s: State, o: nat, outcome: Outcome)
    requires Inv(s) && o < |s.ops| && s.ops[o].phase.Running?
    ensures Flushes(SettleOp(s, o, outcome))
  {
    hide CompatibilityKey, Groups, Waiting, Counted, Futures, Delivery, Compatible, Clocked, ClosedDown, SettleOp;
    SettleIs(s, o, outcome);
    var r := SettleOp(s, o, outcome);
    forall x, p | 0 <= x < |r.ops| && 0 <= p < |r.ops[x].members|
      ensures Placed(r, r.ops[x].members[p], x, p) && Fits(r.items[r.ops[x].members[p]].state, r.ops[x].phase)
    {
      assert Placed(s, s.ops[x].members[p], x, p);
      SettleItem(s, o, outcome, s.ops[x].members[p]);
    }
    forall i | 0 <= i < |r.items| ensures
      && (r.items[i].place.At? ==> Placed(r, i, r.items[i].place.op, r.items[i].place.position))
      && (r.items[i].state.Pending? ==> r.items[i].place.Nowhere?)
      && (r.items[i].state.Dispatched? ==> r.items[i].place.At?)
    {
      SettleItem(s, o, outcome, i);
      if s.items[i].place.At? {
        assert Placed(s, i, s.items[i].place.op, s.items[i].place.position);
      }
    }
  }

  lemma SettleDelivers(s: State, o: nat, outcome: Outcome)
    requires Inv(s) && o < |s.ops| && s.ops[o].phase.Running?
    ensures var r := SettleOp(s, o, outcome); Futures(r) && Delivery(r) && ClosedDown(r)
  {
    hide CompatibilityKey, Groups, Waiting, Counted, Compatible, Clocked, SettleOp;
    SettleIs(s, o, outcome);
    var r := SettleOp(s, o, outcome);
    forall i | 0 <= i < |r.items| ensures
      && (r.items[i].state.Completed? || r.items[i].state.Cancelled? <==> r.items[i].future.Done())
      && (r.items[i].state.Cancelled? <==> r.items[i].future.Aborted?)
    {
      SettleItem(s, o, outcome, i);
    }
    forall i | 0 <= i < |r.items| && r.items[i].future.Resolved? ensures DeliveredOwn(r, i) {
      SettleItem(s, o, outcome, i);
      if s.items[i].future.Resolved? {
        assert DeliveredOwn(s, i);
        assert s.items[i].place.op != o;
      } else {
        assert s.items[i].place.At? && s.items[i].place.op == o;
      }
    }
  }

  lemma SettleKeeps(s: State, o: nat, outcome: Outcome)
    requires Inv(s) && o < |s.ops| && s.ops[o].phase.Running?
    ensures Inv(SettleOp(s, o, outcome))
  {
    hide Groups, Waiting, Counted, Flushes, Futures, Delivery, Compatible, Clocked, ClosedDown, SettleOp;
    SettleWaiting(s, o, outcome);
    SettleFlushes(s, o, outcome);
    SettleDelivers(s, o, outcome);
    SettleIs(s, o, outcome);
  }

  // ---------------------------------------------------------------- starting and finishing

  /** Moving one operation along its life, with its members as they are. */
  lemma OpMoves(s: State, r: State, o: nat, op: Op)
    requires Inv(s) && o < |s.ops| && Lived(op) && op.members == s.ops[o].members && op.outcome == s.ops[o].outcome
    requires r == s.(ops := s.ops[o := op], inflight := r.inflight)
    requires r.inflight == s.inflight - IsOpen()(s.ops[o]) + IsOpen()(op)
    requires forall it: ItemState :: Fits(it, s.ops[o].phase) ==> Fits(it, op.phase)
    requires s.closed ==> !op.phase.Created?
    ensures Inv(r)
  {
    hide CompatibilityKey;
    TotalUpdate(s.ops, o, op, IsOpen());
    OpMovesWaiting(s, r, o);
    OpMovesFlushes(s, r, o, op);
    forall i | 0 <= i < |r.items| && r.items[i].future.Resolved? ensures DeliveredOwn(r, i) {
      assert DeliveredOwn(s, i);
    }
  }

  lemma OpMovesWaiting(s: State, r: State, o: nat)
    requires Shaped(s) && Groups(s) && Waiting(s)
    requires r == s.(ops := r.ops, inflight := r.inflight)
    ensures Groups(r) && Waiting(r)
  {
    hide CompatibilityKey;
    assert forall b :: Collecting(r, b) <==> Collecting(s, b);
    forall b, j | 0 <= b < |r.batches| && r.batches[b].timer.Armed? && 0 <= j < |r.batches[b].members|
      ensures WaitsIn(r, r.batches[b].members[j], b)
    {
      assert WaitsIn(s, s.batches[b].members[j], b);
    }
    forall i | 0 <= i < |r.items| && r.items[i].state.Pending? ensures WaitsSomewhere(r, i) {
      assert WaitsSomewhere(s, i);
    }
  }

  lemma OpMovesFlushes(s: State, r: State, o: nat, op: Op)
    requires Shaped(s) && Flushes(s) && o < |s.ops| && Lived(op) && op.members == s.ops[o].members
    requires r == s.(ops := s.ops[o := op], inflight := r.inflight)
    requires forall it: ItemState :: Fits(it, s.ops[o].phase) ==> Fits(it, op.phase)
    ensures Flushes(r)
  {
    forall x, p | 0 <= x < |r.ops| && 0 <= p < |r.ops[x].members|
      ensures Placed(r, r.ops[x].members[p], x, p) && Fits(r.items[r.ops[x].members[p]].state, r.ops[x].phase)
    {
      assert Placed(s, s.ops[x].members[p], x, p);
    }
    forall i | 0 <= i < |r.items| && r.items[i].place.At?
      ensures Placed(r, i, r.items[i].place.op, r.items[i].place.position)
    {
      assert Placed(s, i, s.items[i].place.op, s.items[i].place.position);
    }
  }

  lemma OpensCounted(s: State, o: nat)
    requires Counted(s) && o < |s.ops| && !s.ops[o].phase.Finished?
    ensures s.inflight > 0
  {
    TotalBounds(s.ops, IsOpen(), o);
  }

  lemma OpLived(s: State, o: nat)
    requires Flushes(s) && o < |s.ops|
    ensures Lived(s.ops[o])
  {
  }

  lemma StartKeeps(s: State, o: nat)
    requires Inv(s) && o < |s.ops| && s.ops[o].phase.Created?
    ensures Inv(s.(ops := s.ops[o := s.ops[o].(phase := Running, started := true)]))
  {
    hide CompatibilityKey, Shaped, Groups, Waiting, Counted, Flushes, Futures, Delivery, Compatible, Clocked,
      ClosedDown;
    OpLived(s, o);
    var op := s.ops[o].(phase := Running, started := true);
    OpMoves(s, s.(ops := s.ops[o := op]), o, op);
  }

  /** The accounting error of the `finally` block cannot be raised. */
  lemma FinishKeeps(s: State, o: nat)
    requires Inv(s) && o < |s.ops| && s.ops[o].phase.Settled?
    ensures Inv(FinishOp(s, o)) && s.inflight > 0
  {
    hide CompatibilityKey, Groups, Waiting, Counted, Flushes, Futures, Delivery, Compatible, Clocked, ClosedDown;
    OpLived(s, o);
    OpensCounted(s, o);
    OpMoves(s, FinishOp(s, o), o, s.ops[o].(phase := Finished, decrements := s.ops[o].decrements + 1));
  }

  // ---------------------------------------------------------------- cancellation

  /** A pending item is in the group of its key; it leaves, and an emptied group with it. */
  lemma WithdrawIs(s: State, i: nat)
    requires Inv(s) && i < |s.items| && s.items[i].state.Pending?
    ensures var r := Withdraw(s, i); var b := s.groups[s.items[i].Key()]; var left := Remove(s.batches[b].members, i);
      && s.items[i].Key() in s.groups && b < |s.batches| && Collecting(s, b)
      && s.batches[b].key == s.items[i].Key()
      && NoDup(left) && |left| == |s.batches[b].members| - 1
      && (forall j :: j in left <==> j in s.batches[b].members && j != i)
      && r == s.(pending := s.pending - 1,
           batches := s.batches[b := s.batches[b].(members := left,
             timer := if left == [] then Disarmed else s.batches[b].timer)],
           groups := if left == [] then s.groups - {s.items[i].Key()} else s.groups)
  {
    hide CompatibilityKey, Counted, Flushes, Futures, Delivery, Compatible, Clocked, ClosedDown;
    assert WaitsSomewhere(s, i);
    var b := s.groups[s.items[i].Key()];
    assert s.batches[b].key == s.items[i].Key() && Collecting(s, b);
    RemoveMembers(s.batches[b].members, i);
  }

  /** The state after a pending item is withdrawn and marked cancelled. */
  lemma CancelPendingGroups(s: State, i: nat)
    requires Inv(s) && i < |s.items| && s.items[i].state.Pending?
    ensures Groups(CancelItem(s, i))
  {
    hide CompatibilityKey, Waiting, Counted, Flushes, Futures, Delivery, Compatible, Clocked, ClosedDown, Withdraw;
    WithdrawIs(s, i);
    var r := CancelItem(s, i);
    forall x | 0 <= x < |r.batches| ensures Collecting(r, x) <==> r.batches[x].timer.Armed? {
      assert r.batches[x].key == s.batches[x].key;
      assert Collecting(s, x) <==> s.batches[x].timer.Armed?;
    }
  }

  lemma CancelPendingWaiting(s: State, i: nat)
    requires Inv(s) && i < |s.items| && s.items[i].state.Pending?
    ensures Waiting(CancelItem(s, i))
  {
    hide CompatibilityKey, Counted, Flushes, Futures, Delivery, Compatible, Clocked, ClosedDown, Withdraw,
      NoDup, Remove;
    WithdrawIs(s, i);
    var r, b := CancelItem(s, i), s.groups[s.items[i].Key()];
    forall x, j | 0 <= x < |r.batches| && r.batches[x].timer.Armed? && 0 <= j < |r.batches[x].members|
      ensures WaitsIn(r, r.batches[x].members[j], x)
    {
      var k := r.batches[x].members[j];
      assert s.batches[x].timer.Armed? && k in s.batches[x].members;
      var l :| 0 <= l < |s.batches[x].members| && s.batches[x].members[l] == k;
      assert WaitsIn(s, s.batches[x].members[l], x);
      assert x == b ==> k != i;
      assert x != b ==> s.batches[x].key != s.batches[b].key;
    }
    forall k | 0 <= k < |r.items| && r.items[k].state.Pending? ensures WaitsSomewhere(r, k) {
      assert WaitsSomewhere(s, k);
    }
  }

  lemma CancelPendingCounted(s: State, i: nat)
    requires Inv(s) && i < |s.items| && s.items[i].state.Pending?
    ensures Counted(CancelItem(s, i))
  {
    hide CompatibilityKey, Waiting, Flushes, Futures, Delivery, Compatible, Clocked, ClosedDown, Withdraw;
    WithdrawIs(s, i);
    var r, b := CancelItem(s, i), s.groups[s.items[i].Key()];
    TotalUpdate(s.items, i, r.items[i], IsPending());
    TotalUpdate(s.batches, b, r.batches[b], LiveSize());
  }

  lemma CancelDispatchedWaiting(s: State, i: nat)
    requires Inv(s) && i < |s.items| && !s.items[i].state.Pending?
    ensures var r := CancelItem(s, i); Groups(r) && Waiting(r) && Counted(r)
  {
    hide CompatibilityKey, Flushes, Futures, Delivery, Compatible, Clocked, ClosedDown, Withdraw;
    var r := CancelItem(s, i);
    TotalUpdate(s.items, i, r.items[i], IsPending());
    assert forall b :: Collecting(r, b) <==> Collecting(s, b);
    forall b, j | 0 <= b < |r.batches| && r.batches[b].timer.Armed? && 0 <= j < |r.batches[b].members|
      ensures WaitsIn(r, r.batches[b].members[j], b)
    {
      assert WaitsIn(s, s.batches[b].members[j], b);
    }
    forall k | 0 <= k < |r.items| && r.items[k].state.Pending? ensures WaitsSomewhere(r, k) {
      assert WaitsSomewhere(s, k);
    }
  }

  lemma CancelItemIs(s: State, i: nat)
    requires Inv(s) && i < |s.items|
    ensures var r := CancelItem(s, i);
      r.items == s.items[i := Abort(s.items[i])] && r.ops == s.ops && r.now == s.now && r.closed == s.closed && !r.fault
    ensures s.groups == map[] ==> CancelItem(s, i).groups == map[]
  {
    hide CompatibilityKey, Waiting, Counted, Flushes, Futures, Delivery, Compatible, Clocked, ClosedDown;
  }

  lemma CancelFlushes(s: State, i: nat)
    requires Inv(s) && i < |s.items|
    ensures Flushes(CancelItem(s, i))
  {
    hide CompatibilityKey, Groups, Waiting, Counted, Delivery, Compatible, Clocked, ClosedDown, Futures, CancelItem;
    CancelItemIs(s, i);
    var r := CancelItem(s, i);
    forall x, p | 0 <= x < |r.ops| && 0 <= p < |r.ops[x].members|
      ensures Placed(r, r.ops[x].members[p], x, p) && Fits(r.items[r.ops[x].members[p]].state, r.ops[x].phase)
    {
      assert Placed(s, s.ops[x].members[p], x, p);
    }
    forall k | 0 <= k < |r.items| && r.items[k].place.At?
      ensures Placed(r, k, r.items[k].place.op, r.items[k].place.position)
    {
      assert Placed(s, k, s.items[k].place.op, s.items[k].place.position);
    }
  }

  lemma CancelRest(s: State, i: nat)
    requires Inv(s) && i < |s.items|
    ensures var r := CancelItem(s, i); Futures(r) && Delivery(r) && Compatible(r) && Clocked(r) && ClosedDown(r)
  {
    hide CompatibilityKey, Groups, Waiting, Counted, Flushes, CancelItem;
    CancelItemIs(s, i);
    var r := CancelItem(s, i);
    forall k | 0 <= k < |r.items| ensures r.items[k].Key() == s.items[k].Key() {
    }
    forall k | 0 <= k < |r.items| && r.items[k].future.Resolved? ensures DeliveredOwn(r, k) {
      assert DeliveredOwn(s, k);
    }
  }

  lemma CancelKeeps(c: Config, s: State, i: nat)
    requires Good(c, s) && i < |s.items|
    ensures Good(c, CancelItem(s, i))
  {
    hide CompatibilityKey, Groups, Waiting, Counted, Flushes, Futures, Delivery, Compatible, Clocked,
      ClosedDown, Withdraw, NoDup, Remove;
    CancelItemIs(s, i);
    CancelFlushes(s, i);
    CancelRest(s, i);
    if s.items[i].state.Pending? {
      CancelPendingGroups(s, i);
      CancelPendingWaiting(s, i);
      CancelPendingCounted(s, i);
      WithdrawIs(s, i);
    } else {
      CancelDispatchedWaiting(s, i);
    }
  }

  // ---------------------------------------------------------------- timers and the clock

  lemma TickKeeps(c: Config, s: State, d: nat)
    requires Good(c, s)
    ensures Good(c, s.(now := s.now + d))
  {
    hide CompatibilityKey;
    var r := s.(now := s.now + d);
    assert forall b :: Collecting(r, b) <==> Collecting(s, b);
    forall b, j | 0 <= b < |r.batches| && r.batches[b].timer.Armed? && 0 <= j < |r.batches[b].members|
      ensures WaitsIn(r, r.batches[b].members[j], b)
    {
      assert WaitsIn(s, s.batches[b].members[j], b);
    }
    forall i | 0 <= i < |r.items| && r.items[i].state.Pending? ensures WaitsSomewhere(r, i) {
      assert WaitsSomewhere(s, i);
    }
    TickFlushes(s, r);
  }

  lemma TickFlushes(s: State, r: State)
    requires Inv(s) && r.items == s.items && r.ops == s.ops
    ensures Flushes(r) && Delivery(r)
  {
    hide CompatibilityKey, Groups, Waiting, Counted, Compatible, Clocked, ClosedDown;
    forall x, p | 0 <= x < |r.ops| && 0 <= p < |r.ops[x].members|
      ensures Placed(r, r.ops[x].members[p], x, p) && Fits(r.items[r.ops[x].members[p]].state, r.ops[x].phase)
    {
      assert Placed(s, s.ops[x].members[p], x, p);
    }
    forall k | 0 <= k < |r.items| && r.items[k].place.At?
      ensures Placed(r, k, r.items[k].place.op, r.items[k].place.position)
    {
      assert Placed(s, k, s.items[k].place.op, s.items[k].place.position);
    }
    forall k | 0 <= k < |r.items| && r.items[k].future.Resolved? ensures DeliveredOwn(r, k) {
      assert DeliveredOwn(s, k);
    }
  }

  /** A timer that is not the live one of a group in the map changes nothing at all. */
  lemma StaleTimer(s: State, b: nat)
    requires Inv(s) && b < |s.batches| && !Collecting(s, b)
    ensures TimerExpired(s, b) == s
  {
    hide CompatibilityKey, Waiting, Counted, Flushes, Futures, Delivery, Compatible, Clocked, ClosedDown;
  }

  lemma GroupHasRoom(c: Config, s: State, b: nat)
    requires Groups(s) && Room(c, s) && b < |s.batches| && Collecting(s, b)
    ensures |s.batches[b].members| < c.maxSize
  {
  }

  lemma ExpireKeeps(c: Config, s: State, b: nat)
    requires Good(c, s) && b < |s.batches|
    ensures Good(c, TimerExpired(s, b))
  {
    hide CompatibilityKey, Groups, Waiting, Counted, Flushes, Futures, Delivery, Compatible, Clocked,
      ClosedDown, UpdateAll;
    if Collecting(s, b) {
      DetachIs(s, b, Timeout);
      DetachKeeps(s, b, Timeout);
      GroupHasRoom(c, s, b);
      assert TimerExpired(s, b) == Detach(s, b, Timeout);
    } else {
      StaleTimer(s, b);
    }
  }

  // ---------------------------------------------------------------- shutdown

  /** Shutdown resolves every waiting item and every member of an operation that has not
      started, and nobody else. */
  lemma ShutItems(s: State, i: nat)
    requires Inv(s) && i < |s.items| && !s.closed
    ensures var a := s.items[i]; var b := Shutdown(s).items[i];
      && |Shutdown(s).items| == |s.items|
      && (a.state.Pending? || (a.state.Dispatched? && a.place.op < |s.ops| && s.ops[a.place.op].phase.Created?) ==>
            b == a.(state := Completed, future := Failed(BatchingUnavailable)))
      && (!a.state.Pending? && !(a.state.Dispatched? && a.place.op < |s.ops| && s.ops[a.place.op].phase.Created?) ==>
            b == a)
  {
    hide CompatibilityKey, Counted, Delivery, Compatible, Clocked, ClosedDown;
    var a := s.items[i];
    if a.state.Pending? {
      assert WaitsSomewhere(s, i);
      var b := s.groups[a.Key()];
      assert Collecting(s, b) && Grouped(s, i);
    }
    if a.state.Dispatched? {
      assert Placed(s, i, a.place.op, a.place.position);
      assert i in s.ops[a.place.op].members;
      if NeverStarted(s, i) {
        var o :| 0 <= o < |s.ops| && s.ops[o].phase.Created? && i in s.ops[o].members;
        var p :| 0 <= p < |s.ops[o].members| && s.ops[o].members[p] == i;
        assert Placed(s, s.ops[o].members[p], o, p);
      }
    }
  }

  lemma {:induction false} ShutOpsTotal(ops: seq<Op>, r: seq<Op>)
    requires |r| == |ops| && forall o :: 0 <= o < |ops| ==> r[o] == ShutOp(ops[o])
    ensures Total(r, IsOpen()) == Total(ops, IsOpen()) - Total(ops, IsCreated())
  {
    if ops != [] {
      ShutOpsTotal(ops[..|ops| - 1], r[..|ops| - 1]);
    }
  }

  lemma ShutCounted(s: State)
    requires Inv(s) && !s.closed
    ensures var r := Shutdown(s); Counted(r) && r.pending == 0 && Groups(r) && Waiting(r) && !r.fault
  {
    hide CompatibilityKey, Flushes, Futures, Delivery, Compatible, Clocked, ClosedDown, Grouped,
      NeverStarted, ShutItem, WaitsIn, WaitsSomewhere;
    var r := Shutdown(s);
    forall i | 0 <= i < |r.items| ensures !r.items[i].state.Pending? {
      ShutItems(s, i);
    }
    TotalZero(r.items, IsPending());
    TotalZero(r.batches, LiveSize());
    ShutOpsTotal(s.ops, r.ops);
    TotalNonNegative(r.ops, IsOpen());
  }

  lemma ShutFlushes(s: State)
    requires Inv(s) && !s.closed
    ensures Flushes(Shutdown(s)) && ClosedDown(Shutdown(s))
  {
    hide CompatibilityKey, Groups, Waiting, Counted, Futures, Delivery, Compatible, Clocked, ShutItem,
      Grouped, NeverStarted;
    var r := Shutdown(s);
    forall x, p | 0 <= x < |r.ops| && 0 <= p < |r.ops[x].members|
      ensures Placed(r, r.ops[x].members[p], x, p) && Fits(r.items[r.ops[x].members[p]].state, r.ops[x].phase)
    {
      assert Placed(s, s.ops[x].members[p], x, p);
      ShutItems(s, s.ops[x].members[p]);
    }
    forall k | 0 <= k < |r.items| ensures
      && (r.items[k].place.At? ==> Placed(r, k, r.items[k].place.op, r.items[k].place.position))
      && (r.items[k].state.Pending? ==> r.items[k].place.Nowhere?)
      && (r.items[k].state.Dispatched? ==> r.items[k].place.At?)
    {
      ShutItems(s, k);
      if s.items[k].place.At? {
        assert Placed(s, k, s.items[k].place.op, s.items[k].place.position);
      }
    }
  }

  lemma ShutRest(s: State)
    requires Inv(s) && !s.closed
    ensures var r := Shutdown(s); Futures(r) && Delivery(r) && Compatible(r) && Clocked(r)
  {
    hide CompatibilityKey, Groups, Waiting, Counted, Flushes, ClosedDown, ShutItem, Grouped, NeverStarted;
    var r := Shutdown(s);
    forall k | 0 <= k < |r.items| ensures
      && (r.items[k].state.Completed? || r.items[k].state.Cancelled? <==> r.items[k].future.Done())
      && (r.items[k].state.Cancelled? <==> r.items[k].future.Aborted?)
      && r.items[k].Key() == s.items[k].Key() && r.items[k].request == s.items[k].request
      && r.items[k].submittedAt == s.items[k].submittedAt
    {
      ShutItems(s, k);
    }
    forall k | 0 <= k < |r.items| && r.items[k].future.Resolved? ensures DeliveredOwn(r, k) {
      ShutItems(s, k);
      assert DeliveredOwn(s, k);
    }
  }

  lemma ShutdownKeeps(c: Config, s: State)
    requires Good(c, s)
    ensures Good(c, Shutdown(s))
  {
    hide Waiting, Counted, Flushes, Futures, Delivery, Compatible, Clocked, ClosedDown, ShutItem, Grouped, NeverStarted;
    if !s.closed {
      ShutCounted(s);
      ShutFlushes(s);
      ShutRest(s);
    }
  }

  // ---------------------------------------------------------------- every run

  lemma StepGood(c: Config, s: State, e: Event)
    requires Good(c, s) && c.Accepted()
    ensures Good(c, Step(c, s, e))
  {
    hide Inv, CompatibilityKey, Submit, TimerExpired, SettleOp, FinishOp, CancelItem, Shutdown;
    if Enabled(c, s, e) {
      match e
      case SubmitBy(tenant, request) => SubmitKeeps(c, s, tenant, request);
      case Tick(d) => TickKeeps(c, s, d);
      case Expire(b) => ExpireKeeps(c, s, b);
      case Start(o) => StartKeeps(s, o);
      case Answer(o, outcome) => SettleKeeps(s, o, outcome); SettleBatches(s, o, outcome);
      case Finish(o) => FinishKeeps(s, o); FinishBatches(s, o);
      case CancelBy(i) => CancelKeeps(c, s, i);
      case Close => ShutdownKeeps(c, s);
    }
  }

  lemma SettleBatches(s: State, o: nat, outcome: Outcome)
    requires Shaped(s) && o < |s.ops|
    ensures SettleOp(s, o, outcome).batches == s.batches
    ensures |SettleOp(s, o, outcome).ops| == |s.ops|
    ensures forall x :: 0 <= x < |s.ops| ==> SettleOp(s, o, outcome).ops[x].members == s.ops[x].members
  {
  }

  lemma FinishBatches(s: State, o: nat)
    requires Shaped(s) && o < |s.ops|
    ensures FinishOp(s, o).batches == s.batches && |FinishOp(s, o).ops| == |s.ops|
    ensures forall x :: 0 <= x < |s.ops| ==> FinishOp(s, o).ops[x].members == s.ops[x].members
  {
  }

  lemma {:induction false} RunGood(c: Config, s: State, es: seq<Event>)
    requires Good(c, s) && c.Accepted()
    ensures Good(c, Run(c, s, es))
    decreases |es|
  {
    hide Good, Inv, Step;
    if es != [] {
      StepGood(c, s, es[0]);
      RunGood(c, Step(c, s, es[0]), es[1..]);
    }
  }
}
