/** The batcher itself: `DynamicBatcher` of `gateway/batching/dynamic.py`, its tables updated
    in place, each method proved to be the step it stands for. */
module DynamicBatchers {
  import opened Collections
  import opened Compatibility
  import opened BatcherModel
  import opened BatcherInvariant
  import opened BatcherSteps

  class DynamicBatcher {
    const config: Config
    var items: seq<Item>
    var batches: seq<Group>
    var groups: map<string, nat>
    var ops: seq<Op>
    var pending: int
    var inflight: int
    var closed: bool
    var now: int
    var fault: bool

    ghost function Value(): State
      reads this
    {
      State(items, batches, groups, ops, pending, inflight, closed, now, fault)
    }

    ghost predicate Valid()
      reads this
    {
      Good(config, Value()) && config.Accepted()
    }

    constructor (c: Config)
      requires c.Accepted()
      ensures Valid() && config == c && Value() == INITIAL
    {
      config := c;
      items, batches, groups, ops := [], [], map[], [];
      pending, inflight, now := 0, 0, 0;
      closed, fault := false, false;
      new;
      InitialGood(c);
    }

    /** The loop of `_detach_locked`, `_complete_success` or `_fail_items` over the members. */
    method UpdateMembers(ids: seq<nat>, f: (Item, nat) -> Item)
      requires NoDup(ids) && forall p :: 0 <= p < |ids| ==> ids[p] < |items|
      modifies this`items
      ensures items == UpdateAll(old(items), ids, f)
    {
      UpdateNone(items, ids, f);
      for p := 0 to |ids|
        invariant items == UpdateAll(old(items), ids[..p], f)
      {
        UpdateStep(old(items), ids, f, p);
        items := items[ids[p] := f(items[ids[p]], p)];
      }
      assert ids[..|ids|] == ids;
    }

    method DetachLocked(b: nat, reason: FlushReason)
      requires Inv(Value()) && b < |batches|
      modifies this
      ensures Value() == Detach(old(Value()), b, reason)
    {
      hide Inv, CompatibilityKey, UpdateAll;
      var key := batches[b].key;
      if key !in groups || groups[key] != b || batches[b].members == [] {
        return;
      }
      DetachIs(Value(), b, reason);
      var members := batches[b].members;
      groups := groups - {key};
      batches := batches[b := batches[b].(timer := if reason.Timeout? then Fired else Disarmed)];
      MembersExist(old(Value()), b);
      for p := 0 to |members| {
        if !items[members[p]].state.Pending? {
          assert false;  // the consistency error cannot be raised
        }
      }
      UpdateMembers(members, AsDispatched(|ops|));
      pending := pending - |members|;
      inflight := inflight + 1;
      ops := ops + [Op(members, reason, Created, false, None, 0)];
    }

    method SubmitItem(tenant: string, request: Request) returns (accepted: bool, item: nat)
      requires Valid() && Enabled(config, Value(), SubmitBy(tenant, request))
      modifies this
      ensures Valid() && Value() == Submit(config, old(Value()), tenant, request)
      ensures accepted <==> !old(closed)
      ensures accepted ==> item == |old(items)| < |items| && items[item].request == request && items[item].tenant == tenant
    {
      hide Inv, Room, CompatibilityKey, Detach;
      SubmitKeeps(config, Value(), tenant, request);
      item := |items|;
      if closed {
        return false, item;
      }
      var key := CompatibilityKey(tenant, request);
      var it := Item(tenant, request, now, Pending, Unresolved, Nowhere);
      ghost var s := Value();
      JoinedKeeps(s, it);
      if key !in groups {
        groups := groups[key := |batches|];
        batches := batches + [Group(key, [], Armed, now)];
      }
      var b := groups[key];
      items := items + [it];
      batches := batches[b := batches[b].(members := batches[b].members + [item])];
      pending := pending + 1;
      assert Value() == Joined(s, it);
      if |batches[b].members| >= config.maxSize {
        DetachKeepsRequests(Value(), b, Size);
        DetachLocked(b, Size);
      }
      return true, item;
    }

    method OnTimer(b: nat)
      requires Valid() && b < |batches|
      modifies this
      ensures Valid() && Value() == TimerExpired(old(Value()), b)
    {
      hide Inv, Room, Detach;
      ExpireKeeps(config, Value(), b);
      DetachLocked(b, Timeout);
      if batches[b].timer.Armed? {
        batches := batches[b := batches[b].(timer := Fired)];
      }
      ghost var d := Detach(old(Value()), b, Timeout);
      assert d.batches[b := d.batches[b]] == d.batches;
    }

    /** The flush task takes its first step. */
    method OnStart(o: nat)
      requires Valid() && Enabled(config, Value(), Start(o))
      modifies this
      ensures Valid() && Value() == Step(config, old(Value()), Start(o))
    {
      hide Inv;
      StepGood(config, Value(), Start(o));
      ops := ops[o := ops[o].(phase := Running, started := true)];
    }

    /** The backend call of `_execute_batch` ends, and its members are resolved. */
    method OnAnswer(o: nat, outcome: Outcome)
      requires Valid() && Enabled(config, Value(), Answer(o, outcome))
      modifies this
      ensures Valid() && Value() == SettleOp(old(Value()), o, outcome)
    {
      hide Inv, CompatibilityKey, UpdateAll;
      StepGood(config, Value(), Answer(o, outcome));
      RunningMembers(Value(), o);
      var members := ops[o].members;
      for p := 0 to |members| {
        if NotDispatched()(items[members[p]]) {
          assert false;  // the consistency error cannot be raised
        }
      }
      if outcome.Returned? && |outcome.responses| == |members| {
        UpdateMembers(members, Delivered(outcome.responses));
      } else {
        UpdateMembers(members, FailedWith(if outcome.Interrupted? then BatchingUnavailable else UpstreamFailure));
      }
      ops := ops[o := ops[o].(phase := Settled, outcome := Some(outcome))];
    }

    method OnFinish(o: nat)
      requires Valid() && Enabled(config, Value(), Finish(o))
      modifies this
      ensures Valid() && Value() == FinishOp(old(Value()), o)
    {
      hide Inv;
      StepGood(config, Value(), Finish(o));
      FinishKeeps(Value(), o);
      inflight := inflight - 1;
      ops := ops[o := ops[o].(phase := Finished, decrements := ops[o].decrements + 1)];
    }

    method WithdrawLocked(i: nat)
      requires Shaped(Value()) && i < |items|
      modifies this
      ensures Value() == Withdraw(old(Value()), i)
    {
      hide CompatibilityKey;
      var key := items[i].Key();
      if key in groups && i in batches[groups[key]].members {
        var b := groups[key];
        var left := Remove(batches[b].members, i);
        batches := batches[b := batches[b].(members := left)];
        pending := pending - 1;
        if left == [] {
          groups := groups - {key};
          batches := batches[b := batches[b].(timer := Disarmed)];
        }
      }
    }

    method OnCancel(i: nat)
      requires Valid() && i < |items|
      modifies this
      ensures Valid() && Value() == CancelItem(old(Value()), i)
    {
      hide Inv, Room, CompatibilityKey, Withdraw;
      CancelKeeps(config, Value(), i);
      FutureFollowsState(Value(), i);
      var item := items[i];
      if item.state.Pending? {
        WithdrawLocked(i);
        item := item.(state := Cancelled);
      } else if item.state.Dispatched? {
        item := item.(state := Cancelled);
      }
      if !item.future.Done() {
        item := item.(future := Aborted);
      }
      items := items[i := item];
    }

    method ShutDown()
      requires Valid()
      modifies this
      ensures Valid() && Value() == Shutdown(old(Value()))
    {
      hide Inv, Room, CompatibilityKey, ShutItem, Shutting;
      ShutdownKeeps(config, Value());
      if closed {
        return;
      }
      ghost var s := Value();
      closed := true;
      FailPending(s);
      NoPendingLeft(s, items, 0);
      DropUnstarted(s);
      NoPendingLeft(s, items, |s.ops|);
      ShutOpsTotal(s.ops, ops);
      ShutComplete(s, items, ops);
    }

    /** The first loop of `shutdown`: every group leaves the map, its timer cancelled and its members failed. */
    method FailPending(ghost s: State)
      requires Inv(s) && !s.closed && Value() == s.(closed := true)
      modifies this
      ensures Shutting(s, items, {}, 0)
      ensures pending - Total(items, IsPending()) == s.pending - Total(s.items, IsPending())
      ensures Value() == s.(closed := true, groups := map[], batches := Shutdown(s).batches,
                            items := items, pending := pending)
    {
      hide Inv, CompatibilityKey, UpdateAll, ShutItem, Grouped, NeverStarted, Shutting;
      ShuttingStart(s);
      var found, remaining := groups, groups.Keys;
      groups := map[];
      while remaining != {}
        invariant Shutting(s, items, remaining, 0) && remaining <= s.groups.Keys
        invariant pending - Total(items, IsPending()) == s.pending - Total(s.items, IsPending())
        invariant Disarming(s, batches, remaining)
        invariant Value() == s.(closed := true, groups := map[], batches := batches, items := items, pending := pending)
        decreases remaining
      {
        var key :| key in remaining;
        var b := found[key];
        GroupOf(s, key);
        batches := batches[b := batches[b].(timer := Disarmed)];
        FailGroup(b, s, key, remaining);
        remaining := remaining - {key};
      }
    }

    method FailGroup(b: nat, ghost s: State, ghost key: string, ghost remaining: set<string>)
      requires Inv(s) && key in remaining && key in s.groups && s.groups[key] == b < |batches| == |s.batches|
      requires batches[b].members == s.batches[b].members && Shutting(s, items, remaining, 0)
      modifies this`items, this`pending
      ensures Shutting(s, items, remaining - {key}, 0)
      ensures pending - Total(items, IsPending()) == old(pending - Total(items, IsPending()))
    {
      hide Inv, CompatibilityKey, UpdateAll;
      GroupFails(s, items, key, remaining);
      var members := batches[b].members;
      UpdateNone(items, members, FailPendingItem());
      for p := 0 to |members|
        invariant items == UpdateAll(old(items), members[..p], FailPendingItem())
        invariant pending - Total(items, IsPending()) == old(pending - Total(items, IsPending()))
      {
        UpdateStep(old(items), members, FailPendingItem(), p);
        var item := items[members[p]];
        TotalUpdate(items, members[p], FailPendingItem()(item, p), IsPending());
        if item.state.Pending? {
          pending := pending - 1;
        }
        items := items[members[p] := FailPendingItem()(item, p)];
      }
      assert members[..|members|] == members;
    }

    /** The second loop of `shutdown`: flush operations that have not started will never run. */
    method DropUnstarted(ghost s: State)
      requires Inv(s) && Shutting(s, items, {}, 0) && ops == s.ops && inflight == s.inflight
      modifies this`items, this`ops, this`inflight
      ensures Shutting(s, items, {}, |s.ops|)
      ensures |ops| == |s.ops| && forall x :: 0 <= x < |ops| ==> ops[x] == ShutOp(s.ops[x])
      ensures inflight - Total(ops, IsOpen()) == s.inflight - Total(s.ops, IsOpen())
    {
      hide Inv, CompatibilityKey, UpdateAll, Shutting;
      for o := 0 to |ops|
        invariant Shutting(s, items, {}, o) && |ops| == |s.ops|
        invariant forall x :: 0 <= x < |ops| ==> ops[x] == if x < o then ShutOp(s.ops[x]) else s.ops[x]
        invariant inflight - Total(ops, IsOpen()) == s.inflight - Total(s.ops, IsOpen())
      {
        OpFails(s, items, o);
        if ops[o].phase.Created? {
          UpdateMembers(ops[o].members, FailDispatchedItem());
          OpenIsCounted(s, ops, o);
          if inflight <= 0 {
            assert false;  // the consistency error cannot be raised
          }
          inflight := inflight - 1;
          TotalUpdate(ops, o, ShutOp(ops[o]), IsOpen());
          ops := ops[o := ops[o].(phase := Finished, decrements := ops[o].decrements + 1)];
        }
      }
    }
  }

  function FailPendingItem(): (Item, nat) -> Item {
    (it: Item, p: nat) => if it.state.Pending? then Settle(it, Failed(BatchingUnavailable)) else it
  }

  function FailDispatchedItem(): (Item, nat) -> Item {
    (it: Item, p: nat) => if it.state.Dispatched? then Settle(it, Failed(BatchingUnavailable)) else it
  }

  /** Shutdown has dealt with the item, when the groups `keys` and the operations from `o` on remain. */
  predicate ShutYet(s: State, i: nat, keys: set<string>, o: nat)
    requires i < |s.items|
  {
    var it := s.items[i];
    || (it.state.Pending? && it.Key() !in keys)
    || (it.state.Dispatched? && it.place.At? && it.place.op < o && it.place.op < |s.ops|
        && s.ops[it.place.op].phase.Created?)
  }

  ghost predicate Shutting(s: State, items: seq<Item>, keys: set<string>, o: nat)
    ensures Shutting(s, items, keys, o) ==> |items| == |s.items|
  {
    |items| == |s.items| && forall i :: 0 <= i < |items| ==>
      items[i] == if ShutYet(s, i, keys, o)
                  then s.items[i].(state := Completed, future := Failed(BatchingUnavailable)) else s.items[i]
  }

  ghost predicate Disarming(s: State, batches: seq<Group>, remaining: set<string>) {
    && |batches| == |s.batches|
    && forall b :: 0 <= b < |batches| ==>
      batches[b] == if Collecting(s, b) && s.batches[b].key !in remaining
                    then s.batches[b].(timer := Disarmed) else s.batches[b]
  }

  lemma ShuttingStart(s: State)
    requires Inv(s)
    ensures Shutting(s, s.items, s.groups.Keys, 0)
  {
    hide CompatibilityKey, Groups, Counted, Flushes, Futures, Delivery, Compatible, Clocked, ClosedDown;
    forall i | 0 <= i < |s.items| ensures !ShutYet(s, i, s.groups.Keys, 0) {
      if s.items[i].state.Pending? {
        assert WaitsSomewhere(s, i);
      }
    }
  }

  lemma GroupOf(s: State, key: string)
    requires Inv(s) && key in s.groups
    ensures s.groups[key] < |s.batches| && s.batches[s.groups[key]].key == key && Collecting(s, s.groups[key])
    ensures forall b :: 0 <= b < |s.batches| && Collecting(s, b) && s.batches[b].key == key ==> b == s.groups[key]
  {
    hide CompatibilityKey, Waiting, Counted, Flushes, Futures, Delivery, Compatible, Clocked, ClosedDown;
  }

  /** An unresolved item of the state before shutdown. */
  lemma Unsettled(s: State, i: nat)
    requires Inv(s) && i < |s.items| && (s.items[i].state.Pending? || s.items[i].state.Dispatched?)
    ensures s.items[i].future.Unresolved?
  {
    hide CompatibilityKey, Groups, Waiting, Counted, Flushes, Delivery, Compatible, Clocked, ClosedDown;
  }

  lemma GroupFails(s: State, items: seq<Item>, key: string, remaining: set<string>)
    requires Inv(s) && key in remaining && key in s.groups && s.groups[key] < |s.batches|
    requires Shutting(s, items, remaining, 0)
    ensures var ids := s.batches[s.groups[key]].members;
      && NoDup(ids) && (forall p :: 0 <= p < |ids| ==> ids[p] < |s.items|)
      && Shutting(s, UpdateAll(items, ids, FailPendingItem()), remaining - {key}, 0)
  {
    hide CompatibilityKey, Counted, Flushes, Futures, Delivery, Compatible, Clocked, ClosedDown;
    GroupOf(s, key);
    var b := s.groups[key];
    var ids := s.batches[b].members;
    CollectingGroup(s, b);
    MembersPending(s, b);
    var r := UpdateAll(items, ids, FailPendingItem());
    forall i | 0 <= i < |r| ensures
      r[i] == if ShutYet(s, i, remaining - {key}, 0)
              then s.items[i].(state := Completed, future := Failed(BatchingUnavailable)) else s.items[i]
    {
      if i in ids {
        var p := IndexOf(ids, i);
        assert WaitsIn(s, ids[p], b);
        Unsettled(s, i);
      } else if s.items[i].state.Pending? {
        assert WaitsSomewhere(s, i);
      }
    }
  }

  lemma PlacedAmong(s: State, i: nat, o: nat)
    requires Inv(s) && i < |s.items| && o < |s.ops|
    ensures s.items[i].place.At? && s.items[i].place.op == o ==> i in s.ops[o].members
  {
    hide CompatibilityKey, Groups, Waiting, Counted, Futures, Delivery, Compatible, Clocked, ClosedDown;
    if s.items[i].place.At? && s.items[i].place.op == o {
      assert Placed(s, i, o, s.items[i].place.position);
    }
  }

  lemma OpFails(s: State, items: seq<Item>, o: nat)
    requires Inv(s) && o < |s.ops| && Shutting(s, items, {}, o)
    ensures !s.ops[o].phase.Created? ==> Shutting(s, items, {}, o + 1)
    ensures s.ops[o].phase.Created? ==>
      var ids := s.ops[o].members;
      && NoDup(ids) && (forall p :: 0 <= p < |ids| ==> ids[p] < |items|)
      && Shutting(s, UpdateAll(items, ids, FailDispatchedItem()), {}, o + 1)
  {
    hide CompatibilityKey, Groups, Waiting, Counted, Futures, Delivery, Compatible, Clocked, ClosedDown;
    if s.ops[o].phase.Created? {
      var ids := s.ops[o].members;
      forall p, q | 0 <= p < q < |ids| ensures ids[p] != ids[q] {
        assert Placed(s, ids[p], o, p) && Placed(s, ids[q], o, q);
      }
      forall p | 0 <= p < |ids| ensures ids[p] < |items| {
        assert Placed(s, ids[p], o, p);
      }
      var r := UpdateAll(items, ids, FailDispatchedItem());
      forall i | 0 <= i < |r| ensures
        r[i] == if ShutYet(s, i, {}, o + 1)
                then s.items[i].(state := Completed, future := Failed(BatchingUnavailable)) else s.items[i]
      {
        if i in ids {
          var p := IndexOf(ids, i);
          assert Placed(s, ids[p], o, p) && Fits(s.items[ids[p]].state, Created);
          if s.items[i].state.Dispatched? {
            Unsettled(s, i);
          }
        } else {
          PlacedAmong(s, i, o);
        }
      }
    }
  }

  lemma OpenIsCounted(s: State, ops: seq<Op>, o: nat)
    requires Inv(s) && o < |ops| && !ops[o].phase.Finished?
    ensures Total(ops, IsOpen()) > 0 && s.inflight == Total(s.ops, IsOpen())
  {
    hide CompatibilityKey, Groups, Waiting, Flushes, Futures, Delivery, Compatible, Clocked, ClosedDown;
    TotalBounds(ops, IsOpen(), o);
  }

  lemma NoPendingLeft(s: State, items: seq<Item>, o: nat)
    requires Shutting(s, items, {}, o)
    ensures Total(items, IsPending()) == 0
  {
    hide CompatibilityKey;
    TotalZero(items, IsPending());
  }

  lemma ShutComplete(s: State, items: seq<Item>, ops: seq<Op>)
    requires Inv(s) && !s.closed && Shutting(s, items, {}, |s.ops|)
    requires |ops| == |s.ops| && forall x :: 0 <= x < |ops| ==> ops[x] == ShutOp(s.ops[x])
    ensures items == Shutdown(s).items && ops == Shutdown(s).ops && !Shutdown(s).fault
  {
    hide CompatibilityKey, Groups, Waiting, Counted, Futures, Delivery, Compatible, Clocked, ClosedDown, ShutItem;
    ShutCounted(s);
    forall i | 0 <= i < |items| ensures items[i] == Shutdown(s).items[i] {
      ShutItems(s, i);
      if s.items[i].place.At? {
        assert Placed(s, i, s.items[i].place.op, s.items[i].place.position);
      }
    }
  }

  lemma FutureFollowsState(s: State, i: nat)
    requires Inv(s) && i < |s.items|
    ensures s.items[i].state.Completed? || s.items[i].state.Cancelled? <==> s.items[i].future.Done()
  {
    hide CompatibilityKey, Groups, Waiting, Counted, Flushes, Delivery, Compatible, Clocked, ClosedDown;
  }

  lemma MembersExist(s: State, b: nat)
    requires Inv(s) && b < |s.batches| && Collecting(s, b)
    ensures forall p :: 0 <= p < |s.batches[b].members| ==>
      s.batches[b].members[p] < |s.items| && s.items[s.batches[b].members[p]].state.Pending?
  {
    hide CompatibilityKey, Counted, Flushes, Futures, Delivery, Compatible, Clocked, ClosedDown;
    MembersPending(s, b);
    forall p | 0 <= p < |s.batches[b].members| ensures s.items[s.batches[b].members[p]].state.Pending? {
      assert WaitsIn(s, s.batches[b].members[p], b);
    }
  }

  lemma DetachKeepsRequests(s: State, b: nat, reason: FlushReason)
    requires Shaped(s) && b < |s.batches|
    ensures |Detach(s, b, reason).items| == |s.items|
    ensures forall i :: 0 <= i < |s.items| ==>
      var a := s.items[i]; var r := Detach(s, b, reason).items[i]; r.request == a.request && r.tenant == a.tenant
  {
    hide CompatibilityKey;
  }
}
