/** Fairness over whole runs: bounded bypass between tenants and first-come
    first-served within one, through queue grants and immediate grants alike. */
module AdmissionFairness {
  import opened Collections
  import opened AdmissionModel
  import opened AdmissionInvariant
  import opened AdmissionDispatch
  import opened AdmissionRuns

  /** History only grows: a done future, the tenant of a waiter or of a lease, the end
      of a call and a release are never revised. */
  ghost predicate Extends(s: State, r: State) {
    && |s.waiters| <= |r.waiters| && |s.leases| <= |r.leases|
    && (forall w :: 0 <= w < |s.waiters| ==>
          && r.waiters[w].tenant == s.waiters[w].tenant
          && (s.waiters[w].future.Done() ==> r.waiters[w].future == s.waiters[w].future)
          && (!s.waiters[w].awaited ==> !r.waiters[w].awaited))
    && (forall l :: 0 <= l < |s.leases| ==>
          && r.leases[l].tenant == s.leases[l].tenant
          && (s.leases[l].released ==> r.leases[l].released))
  }

  /** A dispatch only appends to the leases, each new one in the future of its waiter. */
  ghost predicate Appends(s: State, r: State) {
    && s.leases <= r.leases
    && forall l :: |s.leases| <= l < |r.leases| ==> r.leases[l].holder.Pending?
  }

  lemma {:induction false} ScanExtends(c: Config, s: State, n: nat)
    requires Inv(c, s) && n <= |s.ring| && s.globalInflight < c.globalMaxInflight
    ensures Extends(s, Scan(c, s, n).state) && Appends(s, Scan(c, s, n).state)
    decreases n
  {
    hide Inv, Core, Examine;
    if n > 0 {
      ExamineExtends(c, s);
      ExamineKeeps(c, s);
      if !Examine(c, s).granted {
        ScanExtends(c, Examine(c, s).state, n - 1);
      }
    }
  }

  lemma ExamineExtends(c: Config, s: State)
    requires Inv(c, s) && s.ring != [] && s.globalInflight < c.globalMaxInflight
    ensures Extends(s, Examine(c, s).state) && Appends(s, Examine(c, s).state)
  {
    hide GrantHead, Core, DiscardCompleted;
    var t := s.ring[0];
    TakeHeadKeepsCore(c, s);
    DiscardKeepsCore(c, TakeHead(c, s), t);
    DiscardQueue(c, TakeHead(c, s), t);
    var d := DiscardCompleted(c, TakeHead(c, s), t);
    if d.queues[t] != [] && d.inflight[t] < c.tenants[t].maxInflight {
      GrantHeadIs(c, d, t);
    }
  }

  lemma {:induction false} DispatchExtends(c: Config, s: State)
    requires Inv(c, s)
    ensures Extends(s, Dispatch(c, s)) && Appends(s, Dispatch(c, s))
    decreases c.globalMaxInflight - s.globalInflight
  {
    hide Inv, Core, Scan;
    if !(s.closed || s.globalInflight >= c.globalMaxInflight || s.ring == []) {
      ScanKeeps(c, s, |s.ring|);
      ScanExtends(c, s, |s.ring|);
      var pass := Scan(c, s, |s.ring|);
      if pass.granted {
        DispatchExtends(c, pass.state);
      }
    }
  }

  lemma AcquireExtends(c: Config, s: State, t: nat)
    requires Good(c, s)
    ensures Extends(s, Acquire(c, s, t).state)
  {
    hide Good, Inv, Core, Dispatch, Conserved;
    if !s.closed && t < |c.tenants| {
      var d := Dispatch(c, s);
      DispatchExtends(c, s);
      DispatchGood(c, s);
      if !(d.queues[t] == [] && CanAdmit(c, d, t)) && |d.queues[t]| < c.tenants[t].maxQueue
        && d.globalQueued < c.globalMaxQueue
      {
        EnqueueKeeps(c, d, t);
        DispatchExtends(c, Enqueue(c, d, t));
      }
    }
  }

  /** No future is resolved twice and no release is undone. */
  lemma StepExtends(c: Config, s: State, e: Event)
    requires Good(c, s)
    ensures Extends(s, Step(c, s, e))
  {
    hide Good, Inv, Core, Dispatch, Conserved, Acquire, InSomeQueue, RemoveWaiter, CancelWaiter;
    if Enabled(s, e) {
      match e
      case AcquireBy(t) => AcquireExtends(c, s, t);
      case Kill(w) =>
      case Deliver(w) =>
      case TimeOut(w) => TimeOutExtends(c, s, w);
      case Cancel(w) => CancelExtends(c, s, w);
      case Release(l) => ReleaseKeeps(c, s, l); DispatchExtends(c, ReleaseLocked(c, s, l));
      case Close =>
    }
  }

  lemma TimeOutExtends(c: Config, s: State, w: nat)
    requires Good(c, s) && Enabled(s, TimeOut(w))
    ensures Extends(s, Dispatch(c, Leave(c, RemoveWaiter(c, s, w), w, Nobody)))
  {
    hide Good, Inv, Core, Dispatch, Conserved, RemoveWaiter;
    RemoveWaiterKeeps(c, s, w);
    LeaveKeeps(c, RemoveWaiter(c, s, w), w, Nobody);
    DispatchExtends(c, Leave(c, RemoveWaiter(c, s, w), w, Nobody));
  }

  lemma CancelExtends(c: Config, s: State, w: nat)
    requires Good(c, s) && Enabled(s, Cancel(w))
    ensures Extends(s, CancelWaiter(c, s, w))
  {
    hide Good, Inv, Core, Dispatch, Conserved, RemoveWaiter;
    RemoveWaiterKeeps(c, s, w);
    var p := RemoveWaiter(c, s, w);
    LeaveKeeps(c, p, w, Nobody);
    var q, f := Leave(c, p, w, Nobody), p.waiters[w].future;
    if f.Granted? {
      ReleaseKeeps(c, q, f.lease);
      DispatchExtends(c, ReleaseLocked(c, q, f.lease));
    }
    DispatchExtends(c, q);
  }

  // ---------------------------------------------------------------- one dispatch

  /** `w` waits, admission is open and its tenant is below its own cap. */
  ghost predicate Eligible(c: Config, s: State, w: nat)
    requires Shaped(c, s)
  {
    && w < |s.waiters| && s.waiters[w].future.Unresolved? && !s.closed
    && s.inflight[s.waiters[w].tenant] < c.tenants[s.waiters[w].tenant].maxInflight
  }

  /** The live waiters of the same tenant that arrived before `w`. */
  function LiveBefore(s: State, w: nat): set<nat>
    requires w < |s.waiters|
  {
    set v: nat | v < w && s.waiters[v].tenant == s.waiters[w].tenant && s.waiters[v].future.Unresolved?
  }

  /** The tenants in front of `t` in the ring. */
  function Ahead(s: State, t: nat): seq<nat>
    requires t in s.ring
  {
    s.ring[..IndexOf(s.ring, t)]
  }

  lemma InRing(c: Config, s: State, w: nat)
    requires Inv(c, s) && w < |s.waiters| && s.waiters[w].future.Unresolved?
    ensures s.waiters[w].tenant in s.ring
  {
  }

  lemma IndexUnique<T>(s: seq<T>, x: T, i: nat)
    requires NoDup(s) && i < |s| && s[i] == x
    ensures IndexOf(s, x) == i
  {
  }

  /** The new lease, if any, of a dispatch over the waiting `w` of tenant `t`: nobody
      in front of `t` gained a place, and who was granted instead of `t` was in front. */
  ghost predicate Overtakes(s: State, r: State, t: nat)
    requires t in s.ring
  {
    && |r.leases| == |s.leases| + 1
    && r.leases[|s.leases|].holder.Pending?
    && (r.leases[|s.leases|].tenant != t ==>
          && t in r.ring
          && |Ahead(r, t)| < |Ahead(s, t)|
          && r.leases[|s.leases|].tenant in Ahead(s, t)
          && r.leases[|s.leases|].tenant !in Ahead(r, t)
          && forall x :: x in Ahead(r, t) ==> x in Ahead(s, t))
  }

  /** A candidate in front of `t` leaves the front of the ring. */
  lemma ShiftAhead(s: State, r: State, t: nat)
    requires NoDup(s.ring) && t in s.ring && s.ring[0] != t && NoDup(r.ring)
    requires r.ring == s.ring[1..] || r.ring == s.ring[1..] + [s.ring[0]]
    ensures t in r.ring && Ahead(r, t) == Ahead(s, t)[1..] && Ahead(s, t)[0] == s.ring[0]
    ensures s.ring[0] !in Ahead(r, t)
  {
    var p := IndexOf(s.ring, t);
    assert r.ring[p - 1] == t;
    IndexUnique(r.ring, t, p - 1);
    assert r.ring[..p - 1] == s.ring[..p][1..];
  }

  lemma ExamineFair(c: Config, s: State, w: nat)
    requires Inv(c, s) && Eligible(c, s, w) && s.globalInflight < c.globalMaxInflight
    requires s.waiters[w].tenant in s.ring
    ensures var t := s.waiters[w].tenant; var e := Examine(c, s);
      && (s.ring[0] == t ==> e.granted)
      && (e.granted ==>
            && |e.state.leases| == |s.leases| + 1
            && e.state.leases[|s.leases|].tenant == s.ring[0]
            && e.state.leases[|s.leases|].holder.Pending?
            && e.state.globalInflight == s.globalInflight + 1)
      && (!e.granted ==> Eligible(c, e.state, w) && e.state.waiters == s.waiters)
  {
    hide GrantHead, Core;
    var t := s.ring[0];
    InRing(c, s, w);
    TakeHeadKeepsCore(c, s);
    DiscardKeepsCore(c, TakeHead(c, s), t);
    DiscardQueue(c, TakeHead(c, s), t);
    var d := DiscardCompleted(c, TakeHead(c, s), t);
    if d.queues[t] != [] && d.inflight[t] < c.tenants[t].maxInflight {
      GrantHeadIs(c, d, t);
    }
    if t == s.waiters[w].tenant {
      WaitsInQueue(c, s, w);
    }
  }

  lemma WaitsInQueue(c: Config, s: State, w: nat)
    requires Core(c, s) && w < |s.waiters| && s.waiters[w].future.Unresolved?
    ensures w in s.queues[s.waiters[w].tenant]
  {
  }

  /** A pass that reaches the tenant of `w` grants it or somebody in front of it. */
  lemma {:induction false} ScanFair(c: Config, s: State, n: nat, w: nat)
    requires Inv(c, s) && Eligible(c, s, w) && s.globalInflight < c.globalMaxInflight
    requires s.waiters[w].tenant in s.ring && |Ahead(s, s.waiters[w].tenant)| < n <= |s.ring|
    ensures Scan(c, s, n).granted && Overtakes(s, Scan(c, s, n).state, s.waiters[w].tenant)
    decreases n
  {
    hide Inv, Core, Examine;
    var t, e := s.waiters[w].tenant, Examine(c, s);
    ExamineFair(c, s, w);
    ExamineKeeps(c, s);
    ExamineRing(c, s);
    if s.ring[0] != t {
      ShiftAhead(s, e.state, t);
      if !e.granted {
        ExamineRefuses(c, s);
        ScanFair(c, e.state, n - 1, w);
      }
    }
  }

  /** One freed place at a full gateway: exactly one grant, to the tenant of `w` or to one in front of it. */
  lemma DispatchFair(c: Config, s: State, w: nat)
    requires Inv(c, s) && Eligible(c, s, w) && s.globalInflight == c.globalMaxInflight - 1
    requires s.waiters[w].tenant in s.ring
    ensures Overtakes(s, Dispatch(c, s), s.waiters[w].tenant)
  {
    hide Inv, Core, Shaped, Scan;
    ScanFair(c, s, |s.ring|, w);
    ScanKeeps(c, s, |s.ring|);
  }

  // ---------------------------------------------------------------- one step

  /** What one step may do to a waiter `w` of tenant `t` that is still eligible after it. */
  ghost predicate Progress(s: State, r: State, w: nat, t: nat) {
    && t in s.ring && t in r.ring && w < |s.waiters| && w < |r.waiters|
    && LiveBefore(r, w) <= LiveBefore(s, w)
    && |s.leases| <= |r.leases| <= |s.leases| + 1
    && (|r.leases| == |s.leases| || r.leases[|s.leases|].tenant != t ==>
          && |Ahead(r, t)| <= |Ahead(s, t)|
          && forall x :: x in Ahead(r, t) ==> x in Ahead(s, t))
    && (|r.leases| > |s.leases| ==>
          if r.leases[|s.leases|].tenant == t then LiveBefore(r, w) < LiveBefore(s, w)
          else Overtakes(s, r, t))
  }

  lemma LiveBeforeShrinks(s: State, r: State, w: nat)
    requires Extends(s, r) && w < |s.waiters|
    ensures LiveBefore(r, w) <= LiveBefore(s, w)
  {
  }

  lemma FifoAt(s: State, v: nat, w: nat)
    requires Fifo(s) && v < |s.waiters| && w < |s.waiters|
    requires s.waiters[v].tenant == s.waiters[w].tenant && s.waiters[w].future.Granted?
    ensures v < w ==> s.waiters[v].future.Done()
  {
  }

  /** A queue grant to the tenant of `w` goes to one that arrived before `w`. */
  lemma GrantedEarlier(c: Config, s: State, r: State, w: nat)
    requires Core(c, r) && Shaped(c, s) && Extends(s, r) && Eligible(c, s, w) && Eligible(c, r, w)
    requires |r.leases| == |s.leases| + 1 && r.leases[|s.leases|].holder.Pending?
    requires r.leases[|s.leases|].tenant == s.waiters[w].tenant
    requires r.leases[|s.leases|].holder.waiter < |s.waiters|
    ensures LiveBefore(r, w) < LiveBefore(s, w)
  {
    LiveBeforeShrinks(s, r, w);
    var l := |s.leases|;
    var v := r.leases[l].holder.waiter;
    assert r.waiters[v].future == Granted(l) && r.waiters[v].tenant == s.waiters[w].tenant;
    assert !s.waiters[v].future.Done();
    FifoAt(r, w, v);
    assert v in LiveBefore(s, w) && v !in LiveBefore(r, w);
  }

  /** Taking other tenants out of the ring brings `t` no further back. */
  lemma RemoveAhead(s: State, r: State, t: nat, x: nat)
    requires NoDup(s.ring) && NoDup(r.ring) && t in s.ring && x != t && r.ring == Remove(s.ring, x)
    ensures t in r.ring && |Ahead(r, t)| <= |Ahead(s, t)|
    ensures forall y :: y in Ahead(r, t) ==> y in Ahead(s, t)
  {
    if x in s.ring {
      var p, i := IndexOf(s.ring, t), IndexOf(s.ring, x);
      var q := if i < p then p - 1 else p;
      assert r.ring[q] == t;
      IndexUnique(r.ring, t, q);
      forall j | 0 <= j < q ensures r.ring[j] in Ahead(s, t) {
        assert r.ring[j] == s.ring[if j < i then j else j + 1];
        assert r.ring[j] == Ahead(s, t)[if j < i then j else j + 1];
      }
    }
  }

  lemma AppendAhead(s: State, r: State, t: nat, x: nat)
    requires t in s.ring && NoDup(r.ring) && (r.ring == s.ring || r.ring == s.ring + [x])
    ensures t in r.ring && Ahead(r, t) == Ahead(s, t)
  {
    IndexUnique(r.ring, t, IndexOf(s.ring, t));
  }

  /** While somebody eligible waits the gateway is full, and an arrival is granted nothing. */
  lemma AcquireFair(c: Config, s: State, u: nat, w: nat)
    requires Good(c, s) && Eligible(c, s, w)
    ensures var r := Acquire(c, s, u).state;
      && r.leases == s.leases && s.waiters <= r.waiters
      && (r.ring == s.ring || r.ring == s.ring + [u])
  {
    hide Inv, Core;
    EligibleMeansFull(c, s, w);
  }

  lemma EligibleMeansFull(c: Config, s: State, w: nat)
    requires Good(c, s) && Eligible(c, s, w)
    ensures s.globalInflight == c.globalMaxInflight
  {
    var t := s.waiters[w].tenant;
    WaitsInQueue(c, s, w);
    var i :| 0 <= i < |s.queues[t]| && s.queues[t][i] == w;
    assert HasLive(s, t);
  }

  lemma RemoveWaiterFair(c: Config, s: State, v: nat, w: nat)
    requires Inv(c, s) && Eligible(c, s, w) && v < |s.waiters| && s.waiters[v].future.Done()
    requires s.waiters[w].tenant in s.ring
    ensures var t := s.waiters[w].tenant; var r := RemoveWaiter(c, s, v);
      && r == s.(queues := r.queues, globalQueued := r.globalQueued, ring := r.ring, ringIds := r.ringIds)
      && t in r.ring && |Ahead(r, t)| <= |Ahead(s, t)|
      && forall x :: x in Ahead(r, t) ==> x in Ahead(s, t)
  {
    hide Core;
    RemoveWaiterKeeps(c, s, v);
    var t, u, r := s.waiters[w].tenant, s.waiters[v].tenant, RemoveWaiter(c, s, v);
    WaitsInQueue(c, s, w);
    if v in s.queues[u] {
      RemoveMembers(s.queues[u], v) by { IncreasingNoDup(c, s, u); }
      if r.queues[u] == [] {
        assert u in s.ring;
        RemoveAhead(s, r, t, u);
      }
    }
  }

  lemma IncreasingNoDup(c: Config, s: State, u: nat)
    requires Core(c, s) && u < |s.queues|
    ensures NoDup(s.queues[u])
  {
    assert Increasing(s.queues[u]);
  }

  /** After a step that frees at most one place: at most one grant, and only in ring order. */
  lemma FreedFair(c: Config, s: State, m: State, w: nat)
    requires Good(c, s) && Eligible(c, s, w) && Inv(c, m) && Eligible(c, m, w) && Extends(s, m)
    requires |m.leases| == |s.leases|
    requires s.waiters[w].tenant in s.ring && s.waiters[w].tenant in m.ring
    requires |Ahead(m, s.waiters[w].tenant)| <= |Ahead(s, s.waiters[w].tenant)|
    requires forall x :: x in Ahead(m, s.waiters[w].tenant) ==> x in Ahead(s, s.waiters[w].tenant)
    requires |m.waiters| == |s.waiters|
    requires c.globalMaxInflight - 1 <= m.globalInflight <= c.globalMaxInflight
    requires Eligible(c, Dispatch(c, m), w) && Extends(s, Dispatch(c, m))
    ensures Progress(s, Dispatch(c, m), w, s.waiters[w].tenant)
  {
    hide Inv, Core, Good, Scan;
    var t, r := s.waiters[w].tenant, Dispatch(c, m);
    LiveBeforeShrinks(s, r, w);
    if m.globalInflight == c.globalMaxInflight - 1 {
      DispatchFair(c, m, w);
      DispatchKeeps(c, m);
      DispatchExtends(c, m);
      if r.leases[|m.leases|].tenant == t {
        InRing(c, r, w);
        NewLeaseHolder(c, r, |m.leases|);
        GrantedEarlier(c, s, r, w);
      }
    }
  }

  lemma NewLeaseHolder(c: Config, r: State, l: nat)
    requires Core(c, r) && l < |r.leases| && r.leases[l].holder.Pending?
    ensures r.leases[l].holder.waiter < |r.waiters|
  {
  }

  lemma CancelFair(c: Config, s: State, v: nat, w: nat)
    requires Good(c, s) && Eligible(c, s, w) && Enabled(s, Cancel(v))
    requires Eligible(c, CancelWaiter(c, s, v), w)
    ensures Progress(s, CancelWaiter(c, s, v), w, s.waiters[w].tenant)
  {
    hide Inv, Core, Dispatch, Progress, RemoveWaiter;
    EligibleMeansFull(c, s, w);
    InRing(c, s, w);
    RemoveWaiterKeeps(c, s, v);
    RemoveWaiterFair(c, s, v, w);
    CancelExtends(c, s, v);
    var p := RemoveWaiter(c, s, v);
    LeaveKeeps(c, p, v, Nobody);
    var q, f := Leave(c, p, v, Nobody), p.waiters[v].future;
    var removed := v in s.queues[s.waiters[v].tenant];
    var m := if !removed && f.Granted? then ReleaseLocked(c, q, f.lease) else q;
    if f.Granted? {
      ReleaseKeeps(c, q, f.lease);
    }
    assert m.ring == p.ring && Ahead(m, s.waiters[w].tenant) == Ahead(p, s.waiters[w].tenant);
    ReleaseOne(c, q, f, removed);
    FreedFair(c, s, m, w);
  }

  lemma ReleaseOne(c: Config, q: State, f: Future, removed: bool)
    requires Shaped(c, q) && (f.Granted? ==> f.lease < |q.leases|)
    ensures var m := if !removed && f.Granted? then ReleaseLocked(c, q, f.lease) else q;
      && q.globalInflight - 1 <= m.globalInflight <= q.globalInflight
      && (forall t :: 0 <= t < |c.tenants| ==> m.inflight[t] <= q.inflight[t])
      && m.waiters == q.waiters && |m.leases| == |q.leases|
      && (forall l :: 0 <= l < |q.leases| ==> m.leases[l] == q.leases[l] || m.leases[l] == q.leases[l].(released := true))
  {
  }

  lemma TimeOutFair(c: Config, s: State, v: nat, w: nat)
    requires Good(c, s) && Eligible(c, s, w) && Enabled(s, TimeOut(v)) && Eligible(c, Step(c, s, TimeOut(v)), w)
    ensures Progress(s, Step(c, s, TimeOut(v)), w, s.waiters[w].tenant)
  {
    hide Inv, Core, Dispatch, Progress, RemoveWaiter;
    EligibleMeansFull(c, s, w);
    InRing(c, s, w);
    TimeOutExtends(c, s, v);
    RemoveWaiterKeeps(c, s, v);
    RemoveWaiterFair(c, s, v, w);
    LeaveKeeps(c, RemoveWaiter(c, s, v), v, Nobody);
    FreedFair(c, s, Leave(c, RemoveWaiter(c, s, v), v, Nobody), w);
  }

  /** One step of the gateway, seen by a waiter that is eligible before and after it. */
  lemma StepFair(c: Config, s: State, e: Event, w: nat)
    requires Good(c, s) && Eligible(c, s, w) && Eligible(c, Step(c, s, e), w)
    ensures Progress(s, Step(c, s, e), w, s.waiters[w].tenant)
  {
    hide Inv, Core, Dispatch, Progress, Acquire, CancelWaiter, Shutdown;
    StepGood(c, s, e);
    StepExtends(c, s, e);
    InRing(c, s, w);
    InRing(c, Step(c, s, e), w);
    EligibleMeansFull(c, s, w);
    match e
    case AcquireBy(u) =>
      AcquireFair(c, s, u, w);
      AppendAhead(s, Step(c, s, e), s.waiters[w].tenant, u);
      StayedFair(c, s, Step(c, s, e), w);
    case Kill(v) => StayedFair(c, s, Step(c, s, e), w);
    case Deliver(v) => StayedFair(c, s, Step(c, s, e), w);
    case TimeOut(v) =>
      if Enabled(s, e) {
        TimeOutFair(c, s, v, w);
      } else {
        StayedFair(c, s, s, w);
      }
    case Cancel(v) => if Enabled(s, e) { CancelFair(c, s, v, w); } else { StayedFair(c, s, s, w); }
    case Release(l) =>
      if Enabled(s, e) {
        ReleaseKeeps(c, s, l);
        ReleaseOne(c, s, Granted(l), false);
        FreedFair(c, s, ReleaseLocked(c, s, l), w);
      } else {
        StayedFair(c, s, s, w);
      }
    case Close => ShutdownCloses(c, s);
  }

  lemma ShutdownCloses(c: Config, s: State)
    requires Shaped(c, s)
    ensures Shutdown(c, s).closed
  {
  }

  /** A step without grants that moves nobody in front of `t`. */
  lemma StayedFair(c: Config, s: State, r: State, w: nat)
    requires Shaped(c, s) && Shaped(c, r) && Eligible(c, s, w) && Eligible(c, r, w) && Extends(s, r)
    requires |r.leases| == |s.leases| && s.waiters[w].tenant in s.ring && s.waiters[w].tenant in r.ring
    requires Ahead(r, s.waiters[w].tenant) == Ahead(s, s.waiters[w].tenant)
    ensures Progress(s, r, w, s.waiters[w].tenant)
  {
    LiveBeforeShrinks(s, r, w);
  }
}
