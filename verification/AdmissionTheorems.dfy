/** The promises of the admission controller, over every run from its construction. */
module AdmissionTheorems {
  import opened Collections
  import opened AdmissionModel
  import opened AdmissionInvariant
  import opened AdmissionDispatch
  import opened AdmissionRuns
  import opened AdmissionFairness

  /** Any interleaving of arrivals, timeouts, cancellations, releases and shutdown. */
  ghost predicate Reachable(c: Config, s: State) {
    exists es: seq<Event> :: s == Run(c, Initial(c), es)
  }

  /** Accounting, limits, ring exactness, ownership, FIFO order and work conservation hold
      in every reachable state, and none of the consistency errors has been raised. */
  lemma EveryReachableStateIsGood(c: Config, s: State)
    requires Reachable(c, s)
    ensures Good(c, s)
  {
    hide Good, Run;
    var es :| s == Run(c, Initial(c), es);
    InitialGood(c);
    RunGood(c, Initial(c), es);
  }

  // ---------------------------------------------------------------- fairness

  ghost predicate EligibleThroughout(c: Config, s: State, es: seq<Event>, w: nat)
    requires Shaped(c, s)
    decreases |es|
  {
    Eligible(c, s, w) && (es == [] || EligibleThroughout(c, Step(c, s, es[0]), es[1..], w))
  }

  lemma {:induction false} RunExtends(c: Config, s: State, es: seq<Event>)
    requires Good(c, s)
    ensures Extends(s, Run(c, s, es))
    decreases |es|
  {
    hide Good, Inv, Core, Step;
    if es != [] {
      StepGood(c, s, es[0]);
      StepExtends(c, s, es[0]);
      RunExtends(c, Step(c, s, es[0]), es[1..]);
    }
  }

  /** Admission is open, tenant `t` is below its own cap, and somebody of it waits. */
  ghost predicate TenantEligible(c: Config, s: State, t: nat)
    requires Shaped(c, s)
  {
    exists w: nat :: Eligible(c, s, w) && s.waiters[w].tenant == t
  }

  /** The tenant waits throughout the run, be it through one waiter or through several in turn. */
  ghost predicate TenantEligibleThroughout(c: Config, s: State, es: seq<Event>, t: nat)
    requires Shaped(c, s)
    decreases |es|
  {
    TenantEligible(c, s, t) && (es == [] || TenantEligibleThroughout(c, Step(c, s, es[0]), es[1..], t))
  }

  lemma {:induction false} WaiterWaitsForTenant(c: Config, s: State, es: seq<Event>, w: nat)
    requires Good(c, s) && EligibleThroughout(c, s, es, w)
    ensures TenantEligibleThroughout(c, s, es, s.waiters[w].tenant)
    decreases |es|
  {
    hide Good, Inv, Core, Step, Shaped;
    EligibleBounds(c, s, w);
    if es != [] {
      StepGood(c, s, es[0]);
      StepExtends(c, s, es[0]);
      WaiterWaitsForTenant(c, Step(c, s, es[0]), es[1..], w);
    }
  }

  /** Only an arrival adds a waiter. */
  lemma OnlyArrivalsWait(c: Config, s: State, e: Event)
    requires Shaped(c, s) && !e.AcquireBy?
    ensures |Step(c, s, e).waiters| == |s.waiters|
  {
    hide Dispatch, RemoveWaiter, InSomeQueue;
    RemovalKeepsWaiters(c, s);
  }

  lemma RemovalKeepsWaiters(c: Config, s: State)
    requires Shaped(c, s)
    ensures forall w :: 0 <= w < |s.waiters| ==> RemoveWaiter(c, s, w).waiters == s.waiters
  {
  }

  /** A tenant that waits before and after a step has a waiter that waits before and after it. */
  lemma CommonWaiter(c: Config, s: State, e: Event, t: nat) returns (w: nat)
    requires Good(c, s) && TenantEligible(c, s, t) && TenantEligible(c, Step(c, s, e), t)
    ensures Eligible(c, s, w) && Eligible(c, Step(c, s, e), w) && s.waiters[w].tenant == t
  {
    hide Good, Inv, Core, Step, Acquire, Dispatch;
    var r := Step(c, s, e);
    StepGood(c, s, e);
    StepExtends(c, s, e);
    w :| Eligible(c, s, w) && s.waiters[w].tenant == t;
    var v: nat :| Eligible(c, r, v) && r.waiters[v].tenant == t;
    if v < |s.waiters| {
      w := v;
    } else {
      ArrivalKeepsWaiting(c, s, e, w);
    }
  }

  lemma ArrivalKeepsWaiting(c: Config, s: State, e: Event, w: nat)
    requires Good(c, s) && Eligible(c, s, w)
    ensures |Step(c, s, e).waiters| > |s.waiters| ==> s.waiters <= Step(c, s, e).waiters
  {
    hide Good, Inv, Core, Acquire, Dispatch;
    if e.AcquireBy? {
      AcquireFair(c, s, e.tenant, w);
    } else {
      OnlyArrivalsWait(c, s, e);
    }
  }

  /** Until a waiting tenant is granted, the grants go to pairwise different tenants, all of
      which were in front of it in the ring: each overtakes at most once. */
  lemma {:induction false} OvertakenAtMostOnce(c: Config, s: State, es: seq<Event>, t: nat, m: nat)
    requires Good(c, s) && TenantEligibleThroughout(c, s, es, t)
    requires t in s.ring
    requires |s.leases| <= m <= |Run(c, s, es).leases|
    requires forall k :: |s.leases| <= k < m ==> Run(c, s, es).leases[k].tenant != t
    ensures var r := Run(c, s, es);
      && (forall k :: |s.leases| <= k < m ==> r.leases[k].tenant in Ahead(s, t))
      && (forall j, k :: |s.leases| <= j < k < m ==> r.leases[j].tenant != r.leases[k].tenant)
    decreases |es|
  {
    hide Good, Inv, Core, Step, Shaped, Eligible, Ahead, TenantEligible;
    if es != [] && m > |s.leases| {
      var n := Step(c, s, es[0]);
      StepGood(c, s, es[0]);
      var w := CommonWaiter(c, s, es[0], t);
      StepFair(c, s, es[0], w);
      StepExtends(c, s, es[0]);
      RunExtends(c, n, es[1..]);
      EligibleBounds(c, s, w);
      OvertakenAtMostOnce(c, n, es[1..], t, m);
    }
  }

  lemma EligibleBounds(c: Config, s: State, w: nat)
    requires Shaped(c, s) && Eligible(c, s, w)
    ensures w < |s.waiters| && s.waiters[w].tenant < |c.tenants|
  {
  }

  lemma AheadBound(c: Config, s: State, t: nat)
    requires Inv(c, s) && t in s.ring
    ensures |Ahead(s, t)| < |c.tenants|
  {
    hide Core;
    forall x | x in s.ring ensures x < |c.tenants| {
      var i :| 0 <= i < |s.ring| && s.ring[i] == x;
    }
    NoDupBound(s.ring, |c.tenants|);
  }

  lemma ProperSubset(a: set<nat>, b: set<nat>)
    requires a <= b
    ensures |a| <= |b| && (a < b ==> |a| < |b|)
  {
    assert b == a + (b - a);
    if a < b {
      assert b - a != {};
    }
  }

  /** One step spends at least as much of the bound as it grants. */
  lemma PotentialFalls(c: Config, s: State, r: State, w: nat, t: nat)
    requires Progress(s, r, w, t)
    requires |Ahead(r, t)| < |c.tenants|
    ensures |r.leases| - |s.leases| + |LiveBefore(r, w)| * |c.tenants| + |Ahead(r, t)|
         <= |LiveBefore(s, w)| * |c.tenants| + |Ahead(s, t)|
  {
    hide Ahead, LiveBefore, Shaped;
    var a, b, n := |LiveBefore(r, w)|, |LiveBefore(s, w)|, |c.tenants|;
    ProperSubset(LiveBefore(r, w), LiveBefore(s, w));
    Spend(a, b, n);
  }

  lemma {:induction false} Spend(a: nat, b: nat, n: nat)
    requires a <= b
    ensures a * n <= b * n && (a < b ==> a * n + n <= b * n)
  {
    if a < b {
      Spend(a, b - 1, n);
      assert b * n == (b - 1) * n + n;
    }
  }

  /** Bounded waiting. With `k` live predecessors in its own queue and `N` tenants, a waiter
      that stays eligible sees fewer than `(k + 1) * N` grants of any kind go by. */
  lemma {:induction false} BoundedWait(c: Config, s: State, es: seq<Event>, w: nat)
    requires Good(c, s) && EligibleThroughout(c, s, es, w)
    requires s.waiters[w].tenant in s.ring
    ensures |Run(c, s, es).leases| - |s.leases|
         <= |LiveBefore(s, w)| * |c.tenants| + |Ahead(s, s.waiters[w].tenant)|
    ensures |Run(c, s, es).leases| - |s.leases| < (|LiveBefore(s, w)| + 1) * |c.tenants|
    decreases |es|
  {
    hide Good, Inv, Core, Step, Shaped, Eligible, Ahead, LiveBefore;
    EligibleBounds(c, s, w);
    AheadBound(c, s, s.waiters[w].tenant);
    if es != [] {
      var n := Step(c, s, es[0]);
      StepGood(c, s, es[0]);
      StepFair(c, s, es[0], w);
      StepExtends(c, s, es[0]);
      AheadBound(c, n, s.waiters[w].tenant);
      PotentialFalls(c, s, n, w, s.waiters[w].tenant);
      BoundedWait(c, n, es[1..], w);
    }
    assert (|LiveBefore(s, w)| + 1) * |c.tenants| == |LiveBefore(s, w)| * |c.tenants| + |c.tenants|;
  }

  /** Bounded bypass, for any tenant of any reachable state. While the tenant waits, be it
      through one waiter or several, and stays below its own cap, every other tenant is granted
      at most once before it, and fewer grants than there are tenants go by. */
  lemma Fairness(c: Config, s: State, es: seq<Event>, t: nat)
    requires Reachable(c, s) && Shaped(c, s) && TenantEligibleThroughout(c, s, es, t)
    ensures forall j, k | |s.leases| <= j < k < |Run(c, s, es).leases| ::
      Run(c, s, es).leases[j].tenant == Run(c, s, es).leases[k].tenant
      ==> exists i :: |s.leases| <= i <= k && Run(c, s, es).leases[i].tenant == t
    ensures
      || |Run(c, s, es).leases| - |s.leases| < |c.tenants|
      || exists i :: |s.leases| <= i < |Run(c, s, es).leases| && Run(c, s, es).leases[i].tenant == t
  {
    hide Good, Run, TenantEligible, Ahead;
    EveryReachableStateIsGood(c, s);
    TenantInRing(c, s, t);
    var r := Run(c, s, es);
    forall j, k | |s.leases| <= j < k < |r.leases| && r.leases[j].tenant == r.leases[k].tenant
      ensures exists i :: |s.leases| <= i <= k && r.leases[i].tenant == t
    {
      if forall i :: |s.leases| <= i < k + 1 ==> r.leases[i].tenant != t {
        OvertakenAtMostOnce(c, s, es, t, k + 1);
      }
    }
    if forall i :: |s.leases| <= i < |r.leases| ==> r.leases[i].tenant != t {
      var n := |s.leases|;
      RunExtends(c, s, es);
      OvertakenAtMostOnce(c, s, es, t, |r.leases|);
      var granted := seq(|r.leases| - n, (k: nat) requires k < |r.leases| - n => r.leases[n + k].tenant);
      TenantsFit(c, r);
      NoDupBound(granted + [t], |c.tenants|);
    }
  }

  lemma TenantInRing(c: Config, s: State, t: nat)
    requires Good(c, s) && TenantEligible(c, s, t)
    ensures t in s.ring && t < |c.tenants|
  {
    var w: nat :| Eligible(c, s, w) && s.waiters[w].tenant == t;
    InRing(c, s, w);
  }

  lemma TenantsFit(c: Config, s: State)
    requires Shaped(c, s)
    ensures forall l :: 0 <= l < |s.leases| ==> s.leases[l].tenant < |c.tenants|
  {
  }

  /** The step gives back a place that is taken: a release, or the cancellation of a caller
      whose future already holds a lease. */
  predicate GivesBack(s: State, e: Event) {
    && Enabled(s, e)
    && match e
       case Release(l) => !s.leases[l].released
       case Cancel(v) => s.waiters[v].future.Granted?
       case _ => false
  }

  /** While somebody eligible waits, every place given back is granted again in the same step. */
  lemma ReturnedIsGranted(c: Config, s: State, e: Event, w: nat)
    requires Good(c, s) && Eligible(c, s, w) && GivesBack(s, e)
    ensures |Step(c, s, e).leases| == |s.leases| + 1
  {
    hide Inv, Core, Good, Dispatch, Ahead, RemoveWaiter, ReleaseLocked;
    EligibleMeansFull(c, s, w);
    InRing(c, s, w);
    if e.Release? {
      ReleaseKeeps(c, s, e.lease);
      ReleaseFrees(c, s, e.lease);
      DispatchFair(c, ReleaseLocked(c, s, e.lease), w);
    } else {
      var v := e.waiter;
      var f, q := s.waiters[v].future, Leave(c, s, v, Nobody);
      NotQueued(c, s, v);
      NothingRemoved(c, s, v);
      LeaveKeeps(c, s, v, Nobody);
      PendingLease(c, s, v);
      ReleaseKeeps(c, q, f.lease);
      ReleaseFrees(c, q, f.lease);
      DispatchFair(c, ReleaseLocked(c, q, f.lease), w);
    }
  }

  lemma NothingRemoved(c: Config, s: State, w: nat)
    requires Shaped(c, s) && w < |s.waiters| && w !in s.queues[s.waiters[w].tenant]
    ensures RemoveWaiter(c, s, w) == s
  {
  }

  lemma ReleaseFrees(c: Config, s: State, l: nat)
    requires Inv(c, s) && l < |s.leases| && !s.leases[l].released
    ensures var m := ReleaseLocked(c, s, l);
      && m.globalInflight == s.globalInflight - 1 && m.ring == s.ring && m.waiters == s.waiters
      && |m.leases| == |s.leases| && m.closed == s.closed
      && forall t :: 0 <= t < |s.inflight| ==> m.inflight[t] <= s.inflight[t]
  {
    ReleaseAccounted(c, s, l);
  }

  /** The places given back in the course of a run. */
  function GivenBack(c: Config, s: State, es: seq<Event>): nat
    requires Shaped(c, s)
    decreases |es|
  {
    if es == [] then 0 else (if GivesBack(s, es[0]) then 1 else 0) + GivenBack(c, Step(c, s, es[0]), es[1..])
  }

  lemma SomebodyWaits(c: Config, s: State, t: nat) returns (w: nat)
    requires Shaped(c, s) && TenantEligible(c, s, t)
    ensures Eligible(c, s, w) && s.waiters[w].tenant == t
  {
    w :| Eligible(c, s, w) && s.waiters[w].tenant == t;
  }

  lemma {:induction false} GivenBackAreGranted(c: Config, s: State, es: seq<Event>, t: nat)
    requires Good(c, s) && TenantEligibleThroughout(c, s, es, t)
    ensures GivenBack(c, s, es) <= |Run(c, s, es).leases| - |s.leases|
    decreases |es|
  {
    hide Inv, Core, Good, Step, Shaped, Eligible, GivesBack;
    if es != [] {
      StepGood(c, s, es[0]);
      StepExtends(c, s, es[0]);
      if GivesBack(s, es[0]) {
        var w := SomebodyWaits(c, s, t);
        ReturnedIsGranted(c, s, es[0], w);
      }
      GivenBackAreGranted(c, Step(c, s, es[0]), es[1..], t);
    }
  }

  /** No starvation. A tenant that waits throughout, through whichever waiters, is granted
      before as many places are given back as there are tenants, whoever arrives in between. */
  lemma NoStarvation(c: Config, s: State, es: seq<Event>, t: nat)
    requires Reachable(c, s) && Shaped(c, s) && TenantEligibleThroughout(c, s, es, t)
    ensures
      || GivenBack(c, s, es) < |c.tenants|
      || exists i :: |s.leases| <= i < |Run(c, s, es).leases| && Run(c, s, es).leases[i].tenant == t
  {
    hide Good, Run, GivenBack, TenantEligible, TenantEligibleThroughout;
    EveryReachableStateIsGood(c, s);
    GivenBackAreGranted(c, s, es, t);
    Fairness(c, s, es, t);
  }

  /** The same for one waiter with `k` live predecessors among `N` tenants: fewer than
      `(k + 1) * N` grants go by and fewer places are given back while it waits. */
  lemma WaiterFairness(c: Config, s: State, es: seq<Event>, w: nat)
    requires Reachable(c, s) && Shaped(c, s) && EligibleThroughout(c, s, es, w)
    ensures |Run(c, s, es).leases| - |s.leases| < (|LiveBefore(s, w)| + 1) * |c.tenants|
    ensures GivenBack(c, s, es) < (|LiveBefore(s, w)| + 1) * |c.tenants|
  {
    hide Good, Run, LiveBefore, GivenBack, TenantEligibleThroughout;
    EveryReachableStateIsGood(c, s);
    InRing(c, s, w);
    BoundedWait(c, s, es, w);
    WaiterWaitsForTenant(c, s, es, w);
    GivenBackAreGranted(c, s, es, s.waiters[w].tenant);
  }

  /** Within a tenant: whoever is granted, everybody who arrived earlier is no longer waiting. */
  lemma FirstComeFirstServed(c: Config, s: State, v: nat, w: nat)
    requires Reachable(c, s) && v < w < |s.waiters| && s.waiters[v].tenant == s.waiters[w].tenant
    requires s.waiters[w].future.Granted?
    ensures s.waiters[v].future.Done()
  {
    EveryReachableStateIsGood(c, s);
  }

  // ---------------------------------------------------------------- work conservation

  lemma {:induction false} ScanFindsNothing(c: Config, s: State, n: nat)
    requires Good(c, s) && !s.closed && n <= |s.ring| && s.globalInflight < c.globalMaxInflight
    ensures !Scan(c, s, n).granted
    decreases n
  {
    hide Good, Inv, Core, Examine;
    if n > 0 {
      ExamineFindsNothing(c, s);
      ScanFindsNothing(c, Examine(c, s).state, n - 1);
    }
  }

  lemma ExamineFindsNothing(c: Config, s: State)
    requires Good(c, s) && !s.closed && s.ring != [] && s.globalInflight < c.globalMaxInflight
    ensures !Examine(c, s).granted && Good(c, Examine(c, s).state)
  {
    hide Core, GrantHead;
    var t, e := s.ring[0], Examine(c, s);
    TakeHeadKeepsCore(c, s);
    DiscardQueue(c, TakeHead(c, s), t);
    var d := DiscardCompleted(c, TakeHead(c, s), t);
    if d.queues[t] != [] {
      assert d.queues[t][0] in s.queues[t];
      assert HasLive(s, t);
    }
    ExamineKeeps(c, s);
    ExamineRing(c, s);
    forall u: nat | HasLive(e.state, u) ensures HasLive(s, u) {
      var i :| 0 <= i < |e.state.queues[u]| && s.waiters[e.state.queues[u][i]].future.Unresolved?;
      assert e.state.queues[u][i] in s.queues[u];
    }
  }

  /** Between critical sections there is nothing left to dispatch: a dispatch grants nothing. */
  lemma NothingToDispatch(c: Config, s: State)
    requires Good(c, s)
    ensures Dispatch(c, s).leases == s.leases && Dispatch(c, s).globalInflight == s.globalInflight
  {
    hide Good, Inv, Core, Scan;
    if !(s.closed || s.globalInflight >= c.globalMaxInflight || s.ring == []) {
      ScanFindsNothing(c, s, |s.ring|);
    }
  }

  lemma EnqueueQuiet(c: Config, s: State, t: nat)
    requires Inv(c, s) && Quiet(c, s) && !s.closed && t < |c.tenants| && !CanAdmit(c, s, t)
    ensures Quiet(c, Enqueue(c, s, t))
  {
    hide Core;
    var r := Enqueue(c, s, t);
    if s.globalInflight < c.globalMaxInflight {
      forall i | 0 <= i < |r.ring| ensures Settled(c, r, r.ring[i]) {
        if i < |s.ring| {
          assert Settled(c, s, s.ring[i]);
        } else {
          assert s.queues[t] == [];
        }
      }
    }
  }

  /** No barging, and a simpler `acquire`. The first dispatch grants nothing; after it, room for
      the tenant implies that nobody of it waits, so the queue test is redundant; and the
      dispatch after queueing changes nothing at all. */
  lemma AcquireSimplified(c: Config, s: State, t: nat)
    requires Good(c, s) && !s.closed && t < |c.tenants|
    ensures var d := Dispatch(c, s);
      && d.leases == s.leases
      && (CanAdmit(c, d, t) ==> d.queues[t] == [])
      && Acquire(c, s, t) ==
         if CanAdmit(c, d, t) then Acquired(Grant(c, d, t, Caller), Admitted(|s.leases|))
         else if |d.queues[t]| >= c.tenants[t].maxQueue then Acquired(d, Refused(TenantQueueFull))
         else if d.globalQueued >= c.globalMaxQueue then Acquired(d, Refused(GatewayQueueFull))
         else Acquired(Enqueue(c, d, t), Queued(|s.waiters|))
  {
    hide Good, Inv, Core, Dispatch, Quiet, Enqueue, Grant;
    var d := Dispatch(c, s);
    NothingToDispatch(c, s);
    DispatchGood(c, s);
    DispatchQuiet(c, s);
    if CanAdmit(c, d, t) {
      RoomMeansEmptyQueue(c, d, t);
    } else if |d.queues[t]| < c.tenants[t].maxQueue && d.globalQueued < c.globalMaxQueue {
      EnqueueKeeps(c, d, t);
      EnqueueQuiet(c, d, t);
      DispatchIdle(c, Enqueue(c, d, t));
    }
  }

  // ---------------------------------------------------------------- leases

  /** Releasing a lease a second time changes nothing. */
  lemma ReleaseTwice(c: Config, s: State, l: nat)
    requires Good(c, s) && Enabled(s, Release(l))
    ensures Step(c, Step(c, s, Release(l)), Release(l)) == Step(c, s, Release(l))
  {
    hide Good, Inv, Core, Dispatch;
    var m := ReleaseLocked(c, s, l);
    ReleaseKeeps(c, s, l);
    DispatchExtends(c, m);
    DispatchIdempotent(c, m);
    ReleaseKeepsFlag(c, s, l);
  }

  lemma ReleaseKeepsFlag(c: Config, s: State, l: nat)
    requires Good(c, s) && Enabled(s, Release(l))
    ensures var m := ReleaseLocked(c, s, l); |m.leases| == |s.leases| && m.leases[l].released && m.leases[l].holder.Caller?
  {
    if !s.leases[l].released {
      ReleaseAccounted(c, s, l);
    }
  }

  /** Every lease that still occupies a place can be released by somebody. */
  ghost predicate NoneLost(s: State) {
    forall l :: 0 <= l < |s.leases| && !s.leases[l].released ==> !s.leases[l].holder.Nobody?
  }

  /** The one way to lose a lease: a timeout that arrives after the grant. */
  predicate LateTimeOut(s: State, e: Event) {
    e.TimeOut? && Enabled(s, e) && s.waiters[e.waiter].future.Granted?
  }

  lemma LateTimeOutLoses(c: Config, s: State, e: Event)
    requires Good(c, s) && LateTimeOut(s, e)
    ensures !NoneLost(Step(c, s, e))
  {
    hide Inv, Core, Dispatch;
    var w := e.waiter;
    RemoveWaiterKeeps(c, s, w);
    var p := RemoveWaiter(c, s, w);
    LeaveKeeps(c, p, w, Nobody);
    PendingLease(c, s, w);
    DispatchExtends(c, Leave(c, p, w, Nobody));
    var l := s.waiters[w].future.lease;
    assert Step(c, s, e).leases[l] == s.leases[l].(holder := Nobody);
  }

  lemma PendingLease(c: Config, s: State, w: nat)
    requires Core(c, s) && w < |s.waiters| && s.waiters[w].awaited && s.waiters[w].future.Granted?
    ensures s.waiters[w].future.lease < |s.leases|
    ensures s.leases[s.waiters[w].future.lease] == Lease(s.waiters[w].tenant, false, Pending(w))
  {
  }

  lemma AcquireLoses(c: Config, s: State, t: nat)
    requires Good(c, s) && NoneLost(s)
    ensures NoneLost(Acquire(c, s, t).state)
  {
    hide Good, Inv, Core, Dispatch;
    if !s.closed && t < |c.tenants| {
      var d := Dispatch(c, s);
      DispatchExtends(c, s);
      AcquireSimplified(c, s, t);
    }
  }

  lemma OthersLoseNothing(c: Config, s: State, e: Event)
    requires Good(c, s) && NoneLost(s) && !LateTimeOut(s, e)
    ensures NoneLost(Step(c, s, e))
  {
    hide Good, Inv, Core, Dispatch, Acquire, Shutdown;
    if Enabled(s, e) {
      match e
      case AcquireBy(t) => AcquireLoses(c, s, t);
      case Kill(w) =>
      case Deliver(w) =>
      case TimeOut(w) =>
        RemoveWaiterKeeps(c, s, w);
        LeaveKeeps(c, RemoveWaiter(c, s, w), w, Nobody);
        DispatchExtends(c, Leave(c, RemoveWaiter(c, s, w), w, Nobody));
      case Cancel(w) => CancelLoses(c, s, w);
      case Release(l) => ReleaseKeeps(c, s, l); DispatchExtends(c, ReleaseLocked(c, s, l));
      case Close => assert Shutdown(c, s).leases == s.leases by { ShutdownLeases(c, s); }
    }
  }

  lemma ShutdownLeases(c: Config, s: State)
    requires Shaped(c, s)
    ensures Shutdown(c, s).leases == s.leases
  {
  }

  lemma CancelLoses(c: Config, s: State, w: nat)
    requires Good(c, s) && NoneLost(s) && Enabled(s, Cancel(w))
    ensures NoneLost(CancelWaiter(c, s, w))
  {
    hide Good, Inv, Core, Dispatch;
    RemoveWaiterKeeps(c, s, w);
    var p := RemoveWaiter(c, s, w);
    LeaveKeeps(c, p, w, Nobody);
    var q, f := Leave(c, p, w, Nobody), p.waiters[w].future;
    if f.Granted? {
      NotQueued(c, s, w);
      PendingLease(c, s, w);
      ReleaseKeeps(c, q, f.lease);
      ReleaseAccounted(c, q, f.lease);
      DispatchExtends(c, ReleaseLocked(c, q, f.lease));
    } else {
      DispatchExtends(c, q);
    }
  }

  /** Exactly when a step can lose a lease: if and only if it is a late timeout. */
  lemma LosesExactlyWhen(c: Config, s: State, e: Event)
    requires Good(c, s) && NoneLost(s)
    ensures NoneLost(Step(c, s, e)) <==> !LateTimeOut(s, e)
  {
    hide Good, Step, Enabled, NoneLost;
    if LateTimeOut(s, e) {
      LateTimeOutLoses(c, s, e);
    } else {
      OthersLoseNothing(c, s, e);
    }
  }

  /** A lost lease occupies its place for the rest of every run. */
  lemma {:induction false} LostForever(c: Config, s: State, es: seq<Event>, l: nat)
    requires Good(c, s) && l < |s.leases| && s.leases[l].holder.Nobody? && !s.leases[l].released
    ensures var r := Run(c, s, es);
      l < |r.leases| && r.leases[l] == s.leases[l] && r.inflight[s.leases[l].tenant] > 0
    decreases |es|
  {
    hide Good, Inv, Core, Step;
    if es != [] {
      StepGood(c, s, es[0]);
      LostStays(c, s, es[0], l);
      LostForever(c, Step(c, s, es[0]), es[1..], l);
    } else {
      ReleaseAccounted(c, s, l);
    }
  }

  lemma LostStays(c: Config, s: State, e: Event, l: nat)
    requires Good(c, s) && l < |s.leases| && s.leases[l].holder.Nobody? && !s.leases[l].released
    ensures l < |Step(c, s, e).leases| && Step(c, s, e).leases[l] == s.leases[l]
  {
    hide Good, Inv, Core, Dispatch, Acquire, Shutdown;
    if Enabled(s, e) {
      match e
      case AcquireBy(t) =>
        AcquireAppends(c, s, t);
      case Kill(w) =>
      case Deliver(w) => if s.waiters[w].future.Granted? { PendingLease(c, s, w); }
      case TimeOut(w) =>
        RemoveWaiterKeeps(c, s, w);
        if s.waiters[w].future.Granted? { PendingLease(c, s, w); }
        LeaveKeeps(c, RemoveWaiter(c, s, w), w, Nobody);
        DispatchExtends(c, Leave(c, RemoveWaiter(c, s, w), w, Nobody));
      case Cancel(w) => LostStaysCancel(c, s, w, l);
      case Release(k) => ReleaseKeeps(c, s, k); DispatchExtends(c, ReleaseLocked(c, s, k));
      case Close => ShutdownLeases(c, s);
    }
  }

  lemma AcquireAppends(c: Config, s: State, t: nat)
    requires Good(c, s)
    ensures s.leases <= Acquire(c, s, t).state.leases
  {
    hide Good, Inv, Core, Dispatch;
    if !s.closed && t < |c.tenants| {
      AcquireSimplified(c, s, t);
    }
  }

  lemma LostStaysCancel(c: Config, s: State, w: nat, l: nat)
    requires Good(c, s) && Enabled(s, Cancel(w))
    requires l < |s.leases| && s.leases[l].holder.Nobody? && !s.leases[l].released
    ensures l < |CancelWaiter(c, s, w).leases| && CancelWaiter(c, s, w).leases[l] == s.leases[l]
  {
    hide Good, Inv, Core, Dispatch;
    RemoveWaiterKeeps(c, s, w);
    var p := RemoveWaiter(c, s, w);
    LeaveKeeps(c, p, w, Nobody);
    var q, f := Leave(c, p, w, Nobody), p.waiters[w].future;
    if f.Granted? {
      PendingLease(c, s, w);
      ReleaseKeeps(c, q, f.lease);
      DispatchExtends(c, ReleaseLocked(c, q, f.lease));
    }
    DispatchExtends(c, q);
  }

  // ---------------------------------------------------------------- shutdown

  /** After shutdown nobody waits, nothing is granted any more, and what is still
      in flight is exactly the unreleased leases. */
  lemma {:induction false} ClosedForGood(c: Config, s: State, es: seq<Event>)
    requires Good(c, s) && s.closed
    ensures var r := Run(c, s, es);
      && r.closed && |r.leases| == |s.leases| && r.globalQueued == 0
      && (forall w :: 0 <= w < |r.waiters| ==> r.waiters[w].future.Done())
      && r.globalInflight == Total(r.leases, Live())
    decreases |es|
  {
    if es != [] {
      hide Good, Inv, Core, Step;
      StepGood(c, s, es[0]);
      ClosedStays(c, s, es[0]);
      ClosedForGood(c, Step(c, s, es[0]), es[1..]);
    } else {
      ClosedIsDrained(c, s);
    }
  }

  lemma ClosedIsDrained(c: Config, s: State)
    requires Good(c, s) && s.closed
    ensures s.globalQueued == 0 && s.globalInflight == Total(s.leases, Live())
    ensures forall w :: 0 <= w < |s.waiters| ==> s.waiters[w].future.Done()
  {
    TotalZero(s.queues, Length());
  }

  lemma ClosedStays(c: Config, s: State, e: Event)
    requires Good(c, s) && s.closed
    ensures Step(c, s, e).closed && |Step(c, s, e).leases| == |s.leases|
  {
    hide Inv, Core;
  }
}
