/** The controller itself: `AdmissionController` of `gateway/admission/controller.py`,
    its fields updated in place, each method proved to be the step it stands for. */
module AdmissionControllers {
  import opened Collections
  import opened AdmissionModel
  import opened AdmissionInvariant
  import opened AdmissionDispatch
  import opened AdmissionRuns

  class AdmissionController {
    const config: Config
    var inflight: seq<int>
    var queues: seq<seq<nat>>
    var ring: seq<nat>
    var ringIds: set<nat>
    var globalInflight: int
    var globalQueued: int
    var closed: bool
    // futures, leases and raised errors are shared with the callers
    var waiters: seq<Waiter>
    var leases: seq<Lease>
    var fault: bool

    ghost function Value(): State
      reads this
    {
      State(inflight, queues, ring, ringIds, globalInflight, globalQueued, closed, waiters, leases, fault)
    }

    ghost predicate Valid()
      reads this
    {
      Good(config, Value())
    }

    constructor (c: Config)
      ensures config == c && Valid() && Value() == Initial(c)
    {
      config := c;
      inflight, queues := seq(|c.tenants|, _ => 0), seq(|c.tenants|, _ => []);
      ring, ringIds := [], {};
      globalInflight, globalQueued := 0, 0;
      closed, fault := false, false;
      waiters, leases := [], [];
      new;
      InitialGood(c);
    }

    method ActivateTenant(t: nat)
      modifies this
      ensures Value() == Activate(old(Value()), t)
    {
      if t !in ringIds {
        ring := ring + [t];
        ringIds := ringIds + {t};
      }
    }

    method DeactivateTenant(t: nat)
      modifies this
      ensures Value() == Deactivate(old(Value()), t)
    {
      if t in ringIds {
        ringIds := ringIds - {t};
        ring := Remove(ring, t);
      }
    }

    method GrantLocked(t: nat, holder: Holder) returns (lease: nat)
      requires Shaped(config, Value()) && t < |config.tenants|
      modifies this
      ensures Value() == Grant(config, old(Value()), t, holder) && lease == |old(leases)|
    {
      lease := |leases|;
      if !(inflight[t] < config.tenants[t].maxInflight && globalInflight < config.globalMaxInflight) {
        fault := true;
        return;
      }
      inflight := inflight[t := inflight[t] + 1];
      globalInflight := globalInflight + 1;
      leases := leases + [Lease(t, false, holder)];
    }

    method ReleaseLeaseLocked(l: nat)
      requires Shaped(config, Value()) && l < |leases|
      modifies this
      ensures Value() == ReleaseLocked(config, old(Value()), l)
    {
      if leases[l].released {
        return;
      }
      var t := leases[l].tenant;
      if inflight[t] <= 0 || globalInflight <= 0 {
        fault := true;
        return;
      }
      leases := leases[l := leases[l].(released := true)];
      inflight := inflight[t := inflight[t] - 1];
      globalInflight := globalInflight - 1;
    }

    method PopFront(t: nat)
      requires Shaped(config, Value()) && t < |config.tenants| && queues[t] != []
      modifies this
      ensures Value() == PopHead(config, old(Value()), t)
    {
      queues := queues[t := queues[t][1..]];
      globalQueued := globalQueued - 1;
    }

    method DiscardCompletedWaiters(t: nat)
      requires Shaped(config, Value()) && t < |config.tenants|
      modifies this
      ensures Value() == DiscardCompleted(config, old(Value()), t)
    {
      while queues[t] != [] && waiters[queues[t][0]].future.Done()
        invariant Shaped(config, Value())
        invariant DiscardCompleted(config, Value(), t) == DiscardCompleted(config, old(Value()), t)
        decreases |queues[t]|
      {
        PopFront(t);
      }
    }

    method RemoveWaiterLocked(w: nat) returns (removed: bool)
      requires Shaped(config, Value()) && w < |waiters|
      modifies this
      ensures Value() == RemoveWaiter(config, old(Value()), w)
      ensures removed == (w in old(queues)[waiters[w].tenant])
    {
      var t := waiters[w].tenant;
      removed := w in queues[t];
      if !removed {
        return;
      }
      queues := queues[t := Remove(queues[t], w)];
      globalQueued := globalQueued - 1;
      if queues[t] == [] {
        DeactivateTenant(t);
      }
    }

    method PopAndReactivate(t: nat)
      requires Shaped(config, Value()) && t < |config.tenants| && queues[t] != []
      modifies this
      ensures Value() == NextTurn(config, old(Value()), t)
    {
      PopFront(t);
      if queues[t] != [] {
        ActivateTenant(t);
      }
    }

    /** `waiter.future.set_result(lease)`, which raises if the future is already done. */
    method SetResult(w: nat, lease: nat)
      requires Shaped(config, Value()) && w < |waiters| && lease < |leases|
      modifies this
      ensures Value() == Resolve(config, old(Value()), w, lease)
    {
      if waiters[w].future.Done() {
        fault := true;
        return;
      }
      waiters := waiters[w := waiters[w].(future := Granted(lease))];
    }

    /** The grant at the end of one candidate: pop, re-activate, grant, resolve. */
    method GrantFront(t: nat)
      requires Shaped(config, Value()) && t < |config.tenants| && queues[t] != []
      modifies this
      ensures Value() == GrantHead(config, old(Value()), t)
    {
      hide NextTurn, Resolve;
      var w := queues[t][0];
      PopAndReactivate(t);
      var lease := GrantLocked(t, Pending(w));
      if fault {
        return;
      }
      SetResult(w, lease);
    }

    /** One candidate of the dispatch loop. */
    method ExamineFront() returns (granted: bool)
      requires Inv(config, Value()) && ring != [] && globalInflight < config.globalMaxInflight
      modifies this
      ensures Examine(config, old(Value())) == Scanned(Value(), granted)
    {
      hide Core, DiscardCompleted, GrantHead;
      var t := ring[0];
      ghost var p := TakeHead(config, Value());
      TakeHeadKeepsCore(config, Value());
      DiscardKeepsCore(config, p, t);
      DiscardQueue(config, p, t);
      ring := ring[1..];
      ringIds := ringIds - {t};
      DiscardCompletedWaiters(t);
      granted := false;
      if queues[t] == [] {
        return;
      }
      if inflight[t] >= config.tenants[t].maxInflight {
        ActivateTenant(t);
        return;
      }
      GrantFront(t);
      granted := true;
    }

    method DispatchLocked()
      requires Inv(config, Value())
      modifies this
      ensures Value() == Dispatch(config, old(Value()))
    {
      hide Inv, Core, Scan, Shaped;
      if closed {
        return;
      }
      ghost var start := Value();
      while globalInflight < config.globalMaxInflight && ring != []
        invariant Inv(config, Value()) && !closed
        invariant Dispatch(config, Value()) == Dispatch(config, start)
        decreases config.globalMaxInflight - globalInflight
      {
        ScanKeeps(config, Value(), |ring|);
        var granted := ScanRing();
        if !granted {
          break;
        }
      }
    }

    /** One pass of the dispatch loop over the ring, stopping at the first grant. */
    method ScanRing() returns (granted: bool)
      requires Inv(config, Value()) && globalInflight < config.globalMaxInflight
      modifies this
      ensures Scan(config, old(Value()), |old(ring)|) == Scanned(Value(), granted)
    {
      hide Inv, Core, Examine, Shaped;
      var candidateCount := |ring|;
      for i := 0 to candidateCount
        invariant Inv(config, Value()) && globalInflight < config.globalMaxInflight
        invariant candidateCount - i <= |ring|
        invariant Scan(config, Value(), candidateCount - i) == Scan(config, old(Value()), candidateCount)
      {
        ExamineKeeps(config, Value());
        granted := ExamineFront();
        if granted {
          return;
        }
      }
      return false;
    }

    method JoinQueue(t: nat) returns (w: nat)
      requires Shaped(config, Value()) && t < |config.tenants|
      modifies this
      ensures Value() == Enqueue(config, old(Value()), t) && w == |old(waiters)|
    {
      w := |waiters|;
      waiters := waiters + [Waiter(t, Unresolved, true)];
      queues := queues[t := queues[t] + [w]];
      globalQueued := globalQueued + 1;
      ActivateTenant(t);
    }

    /** The critical section of `acquire`. */
    method AcquireSlot(t: nat) returns (outcome: Outcome)
      requires Valid()
      modifies this
      ensures Valid() && Acquired(Value(), outcome) == Acquire(config, old(Value()), t)
    {
      hide Good, Inv, Core, Dispatch, Grant, Enqueue;
      AcquireKeeps(config, Value(), t);
      if closed || t >= |config.tenants| {
        return Refused(AdmissionUnavailable);
      }
      DispatchGood(config, Value());
      DispatchLocked();
      if queues[t] == [] && inflight[t] < config.tenants[t].maxInflight
        && globalInflight < config.globalMaxInflight
      {
        var lease := GrantLocked(t, Caller);
        return Admitted(lease);
      }
      if |queues[t]| >= config.tenants[t].maxQueue {
        return Refused(TenantQueueFull);
      }
      if globalQueued >= config.globalMaxQueue {
        return Refused(GatewayQueueFull);
      }
      EnqueueKeeps(config, Value(), t);
      var w := JoinQueue(t);
      DispatchLocked();
      return Queued(w);
    }

    /** The caller of `acquire` is gone or has its result. */
    method LeaveQueue(w: nat, holder: Holder)
      requires Shaped(config, Value()) && w < |waiters|
      modifies this
      ensures Value() == Leave(config, old(Value()), w, holder)
    {
      var f := waiters[w].future;
      waiters := waiters[w := waiters[w].(awaited := false)];
      if f.Granted? {
        leases := leases[f.lease := leases[f.lease].(holder := holder)];
      }
    }

    method OnTimeOut(w: nat)
      requires Valid() && Enabled(Value(), TimeOut(w))
      modifies this
      ensures Valid() && Value() == Step(config, old(Value()), TimeOut(w))
    {
      hide Good, Inv, Core, Dispatch, Conserved, RemoveWaiter, Leave;
      StepGood(config, Value(), TimeOut(w));
      RemoveWaiterKeeps(config, Value(), w);
      LeaveKeeps(config, RemoveWaiter(config, Value(), w), w, Nobody);
      var _ := RemoveWaiterLocked(w);
      LeaveQueue(w, Nobody);
      DispatchLocked();
    }

    method OnCancelled(w: nat)
      requires Valid() && Enabled(Value(), Cancel(w))
      modifies this
      ensures Valid() && Value() == Step(config, old(Value()), Cancel(w))
    {
      hide Good, Inv, Core, Dispatch, Conserved;
      StepGood(config, Value(), Cancel(w));
      ghost var p := RemoveWaiter(config, Value(), w);
      RemoveWaiterKeeps(config, Value(), w);
      LeaveKeeps(config, p, w, Nobody);
      var f := waiters[w].future;
      if f.Granted? {
        ReleaseKeeps(config, Leave(config, p, w, Nobody), f.lease);
      }
      var removed := RemoveWaiterLocked(w);
      LeaveQueue(w, Nobody);
      if !removed && f.Granted? {
        ReleaseLeaseLocked(f.lease);
      }
      DispatchLocked();
    }

    method ReleaseLease(l: nat)
      requires Valid() && Enabled(Value(), Release(l))
      modifies this
      ensures Valid() && Value() == Step(config, old(Value()), Release(l))
    {
      StepGood(config, Value(), Release(l));
      ReleaseKeeps(config, Value(), l);
      ReleaseLeaseLocked(l);
      DispatchLocked();
    }

    /** Delivering the future's result to its caller. */
    method OnDelivered(w: nat)
      requires Valid() && Enabled(Value(), Deliver(w))
      modifies this
      ensures Valid() && Value() == Step(config, old(Value()), Deliver(w))
    {
      hide Good, Inv, Core, Leave;
      StepGood(config, Value(), Deliver(w));
      LeaveQueue(w, Caller);
    }

    method ShutDown()
      requires Valid()
      modifies this
      ensures Valid() && Value() == Shutdown(config, old(Value()))
    {
      ShutdownKeeps(config, Value());
      if closed {
        return;
      }
      FailQueued();
      closed := true;
      ring, ringIds := [], {};
      if globalQueued != 0 {
        assert false;  // the consistency error cannot be raised
      }
    }

    /** The two loops of `shutdown`: empty every queue, failing whoever still waits. */
    method FailQueued()
      requires Shaped(config, Value()) && !closed
      modifies this
      ensures Value() == old(Value()).(
        queues := Shutdown(config, old(Value())).queues,
        waiters := Shutdown(config, old(Value())).waiters,
        globalQueued := Shutdown(config, old(Value())).globalQueued)
    {
      hide Failing, Shutdown, Shaped;
      ghost var s := Value();
      ghost var end := Shutdown(config, s);
      FailingStart(config, s);
      for t := 0 to |queues|
        invariant Failing(s, end, queues, waiters)
        invariant Value() == s.(queues := queues, waiters := waiters, globalQueued := globalQueued)
        invariant globalQueued == end.globalQueued + Total(queues, Length())
        invariant |queues| == |s.queues| && forall u :: 0 <= u < t ==> queues[u] == []
      {
        while queues[t] != []
          invariant Failing(s, end, queues, waiters)
          invariant Value() == s.(queues := queues, waiters := waiters, globalQueued := globalQueued)
          invariant globalQueued == end.globalQueued + Total(queues, Length())
          invariant |queues| == |s.queues| && forall u :: 0 <= u < t ==> queues[u] == []
          decreases |queues[t]|
        {
          FailFront(t, s, end);
        }
      }
      TotalZero(queues, Length());
      FailingEnd(config, s, queues, waiters);
    }

    method FailFront(t: nat, ghost s: State, ghost end: State)
      requires Failing(s, end, queues, waiters) && t < |queues| && queues[t] != []
      modifies this
      ensures Failing(s, end, queues, waiters)
      ensures Value() == old(Value()).(queues := queues, waiters := waiters, globalQueued := globalQueued)
      ensures queues == old(queues[t := queues[t][1..]])
      ensures globalQueued - Total(queues, Length()) == old(globalQueued - Total(queues, Length()))
    {
      var w := queues[t][0];
      QueueUpdate(queues, t, queues[t][1..]);
      FailingStep(s, end, queues, waiters, t);
      queues := queues[t := queues[t][1..]];
      globalQueued := globalQueued - 1;
      if !waiters[w].future.Done() {
        waiters := waiters[w := waiters[w].(future := Unavailable)];
      }
    }
  }

  /** Half way through: a waiter is as it ends, or untouched and still in a queue. */
  ghost predicate Failing(s: State, end: State, queues: seq<seq<nat>>, waiters: seq<Waiter>) {
    && |queues| == |s.queues| && |waiters| == |s.waiters| == |end.waiters|
    && (forall u, i :: 0 <= u < |queues| && 0 <= i < |queues[u]| ==>
          queues[u][i] < |s.waiters| && InSomeQueue(s.queues, queues[u][i]))
    && (forall w :: 0 <= w < |s.waiters| ==>
          waiters[w] == end.waiters[w] || (waiters[w] == s.waiters[w] && InSomeQueue(queues, w)))
    && (forall w :: 0 <= w < |s.waiters| ==> end.waiters[w] == Failed(s, w))
  }

  function Failed(s: State, w: nat): Waiter
    requires w < |s.waiters|
  {
    if InSomeQueue(s.queues, w) && !s.waiters[w].future.Done()
    then s.waiters[w].(future := Unavailable) else s.waiters[w]
  }

  lemma FailingStart(c: Config, s: State)
    requires Shaped(c, s) && !s.closed
    ensures Failing(s, Shutdown(c, s), s.queues, s.waiters)
    ensures s.globalQueued == Shutdown(c, s).globalQueued + Total(s.queues, Length())
  {
    forall u, i | 0 <= u < |s.queues| && 0 <= i < |s.queues[u]| ensures InSomeQueue(s.queues, s.queues[u][i]) {
      assert s.queues[u][i] in s.queues[u];
    }
  }

  lemma FailingEnd(c: Config, s: State, queues: seq<seq<nat>>, waiters: seq<Waiter>)
    requires Shaped(c, s) && !s.closed && Failing(s, Shutdown(c, s), queues, waiters)
    requires forall u :: 0 <= u < |queues| ==> queues[u] == []
    ensures queues == Shutdown(c, s).queues && waiters == Shutdown(c, s).waiters
  {
  }

  lemma FailingStep(s: State, end: State, queues: seq<seq<nat>>, waiters: seq<Waiter>, t: nat)
    requires Failing(s, end, queues, waiters) && t < |queues| && queues[t] != []
    ensures var w := queues[t][0];
      Failing(s, end, queues[t := queues[t][1..]],
        if waiters[w].future.Done() then waiters else waiters[w := waiters[w].(future := Unavailable)])
  {
    var w := queues[t][0];
    var q := queues[t := queues[t][1..]];
    forall v | 0 <= v < |s.waiters| && v != w && InSomeQueue(queues, v)
      ensures InSomeQueue(q, v)
    {
      var u :| 0 <= u < |queues| && v in queues[u];
      if u == t {
        var i :| 0 <= i < |queues[t]| && queues[t][i] == v;
        assert q[t][i - 1] == v;
      }
      assert v in q[u];
    }
  }
}
