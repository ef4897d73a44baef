/** Accounting, work conservation and lease ownership over every run. */
module AdmissionRuns {
  import opened Collections
  import opened AdmissionModel
  import opened AdmissionInvariant
  import opened AdmissionDispatch

  /** What holds between any two critical sections. */
  ghost predicate Good(c: Config, s: State)
    ensures Good(c, s) ==> Inv(c, s) && Conserved(c, s)
  {
    Inv(c, s) && Conserved(c, s)
  }

  lemma DispatchGood(c: Config, s: State)
    requires Inv(c, s)
    ensures Good(c, Dispatch(c, s))
  {
    hide Inv, Core, Quiet, Shaped, Dispatch, Conserved;
    DispatchKeeps(c, s);
    DispatchQuiet(c, s);
    QuietConserves(c, Dispatch(c, s));
  }

  lemma InitialGood(c: Config)
    ensures Good(c, Initial(c))
  {
    TotalZero(Initial(c).inflight, Itself());
    TotalZero(Initial(c).queues, Length());
  }

  lemma RemoveQueued(q: seq<nat>, w: nat)
    requires Increasing(q) && w in q
    ensures Increasing(Remove(q, w)) && |Remove(q, w)| == |q| - 1
    ensures forall v :: v in Remove(q, w) <==> v in q && v != w
  {
    RemoveMembers(q, w);
  }

  lemma RemoveWaiterCore(c: Config, s: State, w: nat)
    requires Core(c, s) && w < |s.waiters| && s.waiters[w].future.Done()
    ensures Core(c, RemoveWaiter(c, s, w))
  {
    hide Queueing;
    var t := s.waiters[w].tenant;
    if w in s.queues[t] {
      RemoveWaiterQueueing(c, s, w);
      QueueUpdate(s.queues, t, Remove(s.queues[t], w));
    }
  }

  lemma RemoveWaiterQueueing(c: Config, s: State, w: nat)
    requires Core(c, s) && w < |s.waiters| && s.waiters[w].future.Done()
    ensures Queueing(RemoveWaiter(c, s, w))
    ensures var q := s.queues[s.waiters[w].tenant]; w in q ==> |Remove(q, w)| == |q| - 1
  {
    hide Owned, Fifo, Accounted, Bounded;
    var t := s.waiters[w].tenant;
    if w in s.queues[t] {
      var r, q := RemoveWaiter(c, s, w), Remove(s.queues[t], w);
      RemoveQueued(s.queues[t], w);
      assert r.queues == s.queues[t := q];
      forall u, i | 0 <= u < |r.queues| && 0 <= i < |r.queues[u]| ensures Waits(r, r.queues[u][i], u) {
        assert r.queues[u][i] in s.queues[u];
        var j :| 0 <= j < |s.queues[u]| && s.queues[u][j] == r.queues[u][i];
        assert Waits(s, s.queues[u][j], u);
      }
    }
  }

  lemma RemoveWaiterRing(c: Config, s: State, w: nat)
    requires Inv(c, s) && w < |s.waiters|
    ensures RingExact(RemoveWaiter(c, s, w))
  {
    hide Core;
    var t := s.waiters[w].tenant;
    if w in s.queues[t] {
      RemoveMembers(s.ring, t);
    }
  }

  lemma RemoveWaiterKeeps(c: Config, s: State, w: nat)
    requires Inv(c, s) && w < |s.waiters| && s.waiters[w].future.Done()
    ensures var r := RemoveWaiter(c, s, w);
      Inv(c, r) && w !in r.queues[s.waiters[w].tenant] && r.waiters == s.waiters && r.leases == s.leases
  {
    RemoveWaiterCore(c, s, w);
    RemoveWaiterRing(c, s, w);
    hide Core;
    var t := s.waiters[w].tenant;
    if w in s.queues[t] {
      RemoveMembers(s.queues[t], w);
    }
  }

  /** Only the holder of a lease changes. */
  lemma HolderChange(s: seq<Lease>, l: nat, h: Holder, f: Lease -> int)
    requires l < |s| && f(s[l].(holder := h)) == f(s[l])
    ensures Total(s[l := s[l].(holder := h)], f) == Total(s, f)
  {
    TotalUpdate(s, l, s[l].(holder := h), f);
  }

  lemma LeaveAccounted(c: Config, s: State, w: nat, h: Holder)
    requires Core(c, s) && w < |s.waiters|
    ensures Accounted(c, Leave(c, s, w, h))
  {
    var f := s.waiters[w].future;
    if f.Granted? {
      HolderChange(s.leases, f.lease, h, Live());
      forall t | 0 <= t < |s.inflight|
        ensures s.inflight[t] == Total(Leave(c, s, w, h).leases, Unreleased(t))
      {
        HolderChange(s.leases, f.lease, h, Unreleased(t));
      }
    }
  }

  lemma LeaveKeeps(c: Config, s: State, w: nat, h: Holder)
    requires Inv(c, s) && w < |s.waiters| && s.waiters[w].awaited && s.waiters[w].future.Done()
    requires w !in s.queues[s.waiters[w].tenant] && !h.Pending?
    ensures Inv(c, Leave(c, s, w, h))
  {
    hide Accounted, Queueing;
    LeaveAccounted(c, s, w, h);
    LeaveQueueing(c, s, w, h);
  }

  lemma LeaveQueueing(c: Config, s: State, w: nat, h: Holder)
    requires Core(c, s) && w < |s.waiters| && s.waiters[w].future.Done()
    requires w !in s.queues[s.waiters[w].tenant]
    ensures Queueing(Leave(c, s, w, h))
  {
    hide Owned, Fifo, Accounted, Bounded;
    var r := Leave(c, s, w, h);
    forall u, i | 0 <= u < |r.queues| && 0 <= i < |r.queues[u]| ensures Waits(r, r.queues[u][i], u) {
      assert Waits(s, s.queues[u][i], u);
    }
  }

  lemma ReleaseAccounted(c: Config, s: State, l: nat)
    requires Core(c, s) && l < |s.leases| && !s.leases[l].released
    ensures s.inflight[s.leases[l].tenant] > 0 && s.globalInflight > 0
    ensures Accounted(c, ReleaseLocked(c, s, l))
  {
    var t, x := s.leases[l].tenant, s.leases[l].(released := true);
    TotalBounds(s.leases, Unreleased(t), l);
    TotalBounds(s.leases, Live(), l);
    TotalUpdate(s.leases, l, x, Live());
    TotalUpdate(s.inflight, t, s.inflight[t] - 1, Itself());
    var r := ReleaseLocked(c, s, l);
    forall u | 0 <= u < |r.inflight| ensures r.inflight[u] == Total(r.leases, Unreleased(u)) {
      TotalUpdate(s.leases, l, x, Unreleased(u));
    }
  }

  /** Releasing a lease that is not in a pending future keeps the invariant; the
      consistency errors of the release cannot be raised. */
  lemma ReleaseKeeps(c: Config, s: State, l: nat)
    requires Inv(c, s) && l < |s.leases| && !s.leases[l].holder.Pending?
    ensures Inv(c, ReleaseLocked(c, s, l))
  {
    if !s.leases[l].released {
      ReleaseAccounted(c, s, l);
      var r := ReleaseLocked(c, s, l);
      forall u, i | 0 <= u < |r.queues| && 0 <= i < |r.queues[u]| ensures Waits(r, r.queues[u][i], u) {
        assert Waits(s, s.queues[u][i], u);
      }
    }
  }

  lemma GrantKeeps(c: Config, s: State, t: nat)
    requires Inv(c, s) && t < |c.tenants| && CanAdmit(c, s, t)
    ensures Inv(c, Grant(c, s, t, Caller))
  {
    NewLease(c, s, Grant(c, s, t, Caller), t, Caller);
    var r := Grant(c, s, t, Caller);
    forall u, i | 0 <= u < |r.queues| && 0 <= i < |r.queues[u]| ensures Waits(r, r.queues[u][i], u) {
      assert Waits(s, s.queues[u][i], u);
    }
  }

  lemma EnqueueQueueing(c: Config, s: State, t: nat)
    requires Core(c, s) && t < |c.tenants|
    ensures Queueing(Enqueue(c, s, t)) && Fifo(Enqueue(c, s, t))
  {
    hide Accounted, Bounded, Owned;
    var r, w := Enqueue(c, s, t), |s.waiters|;
    forall u, i | 0 <= u < |r.queues| && 0 <= i < |r.queues[u]| ensures Waits(r, r.queues[u][i], u) {
      if u != t || i < |s.queues[t]| {
        assert Waits(s, s.queues[u][i], u);
      }
    }
    assert r.queues[t][|s.queues[t]|] == w;
  }

  lemma EnqueueRing(c: Config, s: State, t: nat)
    requires Inv(c, s) && t < |c.tenants|
    ensures RingExact(Enqueue(c, s, t))
  {
    hide Core;
  }

  lemma EnqueueKeeps(c: Config, s: State, t: nat)
    requires Inv(c, s) && !s.closed && t < |c.tenants|
    requires |s.queues[t]| < c.tenants[t].maxQueue && s.globalQueued < c.globalMaxQueue
    ensures Inv(c, Enqueue(c, s, t))
  {
    hide Queueing, Fifo, RingExact;
    EnqueueQueueing(c, s, t);
    EnqueueRing(c, s, t);
    QueueUpdate(s.queues, t, s.queues[t] + [|s.waiters|]);
  }

  lemma KillKeeps(c: Config, s: State, w: nat)
    requires Good(c, s) && Enabled(s, Kill(w))
    ensures Good(c, Step(c, s, Kill(w)))
  {
    var r := Step(c, s, Kill(w));
    forall u, i | 0 <= u < |r.queues| && 0 <= i < |r.queues[u]| ensures Waits(r, r.queues[u][i], u) {
      assert Waits(s, s.queues[u][i], u);
    }
    forall t: nat | HasLive(r, t) ensures HasLive(s, t) {
      var i :| 0 <= i < |r.queues[t]| && r.waiters[r.queues[t][i]].future.Unresolved?;
      assert s.waiters[s.queues[t][i]].future.Unresolved?;
    }
  }

  lemma ShutdownKeeps(c: Config, s: State)
    requires Good(c, s)
    ensures Good(c, Shutdown(c, s))
  {
    if !s.closed {
      var r := Shutdown(c, s);
      TotalZero(r.queues, Length());
      forall w | 0 <= w < |r.waiters| ensures r.waiters[w].future.Done() {
        if s.waiters[w].future.Unresolved? {
          assert w in s.queues[s.waiters[w].tenant];
          assert InSomeQueue(s.queues, w);
        }
      }
    }
  }

  lemma AcquireKeeps(c: Config, s: State, t: nat)
    requires Good(c, s)
    ensures Good(c, Acquire(c, s, t).state)
  {
    hide Inv, Core, Dispatch, Grant, Enqueue, Conserved, Quiet;
    if !s.closed && t < |c.tenants| {
      var d := Dispatch(c, s);
      DispatchGood(c, s);
      DispatchQuiet(c, s);
      if d.queues[t] == [] && CanAdmit(c, d, t) {
        GrantKeeps(c, d, t);
        GrantConserves(c, d, t);
      } else if |d.queues[t]| < c.tenants[t].maxQueue && d.globalQueued < c.globalMaxQueue {
        EnqueueKeeps(c, d, t);
        DispatchGood(c, Enqueue(c, d, t));
      }
    }
  }

  /** Granting changes nobody's queue and only raises loads. */
  lemma GrantConserves(c: Config, s: State, t: nat)
    requires Good(c, s) && t < |c.tenants| && CanAdmit(c, s, t)
    ensures Conserved(c, Grant(c, s, t, Caller))
  {
    hide Inv, Core;
    var r := Grant(c, s, t, Caller);
    assert forall u :: HasLive(r, u) ==> HasLive(s, u);
  }

  lemma LeaveConserves(c: Config, s: State, w: nat, h: Holder)
    requires Good(c, s) && w < |s.waiters|
    ensures Conserved(c, Leave(c, s, w, h))
  {
    hide Inv, Core;
    var r := Leave(c, s, w, h);
    assert forall u :: HasLive(r, u) ==> HasLive(s, u);
  }

  lemma NotQueued(c: Config, s: State, w: nat)
    requires Inv(c, s) && w < |s.waiters| && s.waiters[w].future.Done() && !s.waiters[w].future.Dead?
    ensures w !in s.queues[s.waiters[w].tenant]
  {
    QueuedWaits(c, s, s.waiters[w].tenant);
  }

  lemma QueuedWaits(c: Config, s: State, t: nat)
    requires Inv(c, s) && t < |s.queues|
    ensures forall w :: w in s.queues[t] ==> Waits(s, w, t)
  {
    hide Waits;
    forall w | w in s.queues[t] ensures Waits(s, w, t) {
      var i :| 0 <= i < |s.queues[t]| && s.queues[t][i] == w;
      assert Waits(s, s.queues[t][i], t);
    }
  }

  /** Every step keeps the accounting and the conservation of work. */
  lemma StepGood(c: Config, s: State, e: Event)
    requires Good(c, s)
    ensures Good(c, Step(c, s, e))
  {
    hide Inv, Core, Dispatch, Leave, RemoveWaiter, ReleaseLocked, Acquire, Shutdown, Conserved;
    if Enabled(s, e) {
      match e
      case AcquireBy(t) => AcquireKeeps(c, s, t);
      case Kill(w) => KillKeeps(c, s, w);
      case Deliver(w) => NotQueued(c, s, w); LeaveKeeps(c, s, w, Caller); LeaveConserves(c, s, w, Caller);
      case TimeOut(w) =>
        RemoveWaiterKeeps(c, s, w);
        LeaveKeeps(c, RemoveWaiter(c, s, w), w, Nobody);
        DispatchGood(c, Leave(c, RemoveWaiter(c, s, w), w, Nobody));
      case Cancel(w) => CancelKeeps(c, s, w);
      case Release(l) => ReleaseKeeps(c, s, l); DispatchGood(c, ReleaseLocked(c, s, l));
      case Close => ShutdownKeeps(c, s);
    }
  }

  lemma CancelKeeps(c: Config, s: State, w: nat)
    requires Good(c, s) && Enabled(s, Cancel(w))
    ensures Good(c, CancelWaiter(c, s, w))
  {
    hide Inv, Core, Dispatch, RemoveWaiter, ReleaseLocked, Conserved;
    RemoveWaiterKeeps(c, s, w);
    var p := RemoveWaiter(c, s, w);
    LeaveKeeps(c, p, w, Nobody);
    var q, f := Leave(c, p, w, Nobody), p.waiters[w].future;
    if f.Granted? {
      ReleaseKeeps(c, q, f.lease);
      DispatchGood(c, ReleaseLocked(c, q, f.lease));
    }
    DispatchGood(c, q);
  }

  lemma {:induction false} RunGood(c: Config, s: State, es: seq<Event>)
    requires Good(c, s)
    ensures Good(c, Run(c, s, es))
    decreases |es|
  {
    hide Good, Inv, Core, Step, Shaped, Conserved;
    if es != [] {
      StepGood(c, s, es[0]);
      RunGood(c, Step(c, s, es[0]), es[1..]);
    }
  }
}
