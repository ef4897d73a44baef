/** What each step of the admission controller does, told without the functions the steps are
    made of: what an arrival is told, who leaves, and what shutdown does to everybody. */
module AdmissionEffects {
  import opened Collections
  import opened AdmissionModel
  import opened AdmissionInvariant
  import opened AdmissionDispatch
  import opened AdmissionRuns
  import opened AdmissionFairness
  import opened AdmissionTheorems

  // ---------------------------------------------------------------- arriving

  /** `r` is what is left of the queue `q` when waiters whose future is done leave its front. */
  ghost predicate FrontDropped(s: State, q: seq<nat>, r: seq<nat>) {
    exists k :: DropsDone(s, q, r, k)
  }

  ghost predicate DropsDone(s: State, q: seq<nat>, r: seq<nat>, k: nat) {
    k <= |q| && r == q[k..] && forall i :: 0 <= i < k ==> q[i] < |s.waiters| && s.waiters[q[i]].future != Unresolved
  }

  lemma DropMore(s: State, q: seq<nat>, m: seq<nat>, r: seq<nat>)
    requires FrontDropped(s, q, m) && FrontDropped(s, m, r)
    ensures FrontDropped(s, q, r)
  {
    var a: nat :| DropsDone(s, q, m, a);
    var b: nat :| DropsDone(s, m, r, b);
    assert forall i :: a <= i < a + b ==> q[i] == m[i - a];
    assert DropsDone(s, q, r, a + b);
  }

  lemma DropNothing(s: State, q: seq<nat>)
    ensures FrontDropped(s, q, q)
  {
    assert DropsDone(s, q, q, 0);
  }

  lemma {:induction false} DiscardDrops(c: Config, s: State, t: nat)
    requires Shaped(c, s) && t < |c.tenants|
    ensures FrontDropped(s, s.queues[t], DiscardCompleted(c, s, t).queues[t])
    decreases |s.queues[t]|
  {
    hide FrontDropped;
    var q := s.queues[t];
    if q != [] && s.waiters[q[0]].future.Done() {
      var p := PopHead(c, s, t);
      DiscardDrops(c, p, t);
      assert DropsDone(s, q, p.queues[t], 1);
      DropsSame(p, s, p.queues[t], DiscardCompleted(c, s, t).queues[t]);
      DropOne(s, q, p.queues[t]);
      DropMore(s, q, p.queues[t], DiscardCompleted(c, s, t).queues[t]);
    } else {
      DropNothing(s, q);
    }
  }

  lemma DropOne(s: State, q: seq<nat>, r: seq<nat>)
    requires DropsDone(s, q, r, 1)
    ensures FrontDropped(s, q, r)
  {
  }

  lemma DropsSame(p: State, s: State, q: seq<nat>, r: seq<nat>)
    requires p.waiters == s.waiters && FrontDropped(p, q, r)
    ensures FrontDropped(s, q, r)
  {
    var k :| DropsDone(p, q, r, k);
    assert DropsDone(s, q, r, k);
  }

  lemma ExamineDrops(c: Config, s: State)
    requires Inv(c, s) && s.ring != [] && s.globalInflight < c.globalMaxInflight && !Examine(c, s).granted
    ensures var r := Examine(c, s).state;
      && r.waiters == s.waiters && |r.queues| == |s.queues|
      && forall u :: 0 <= u < |s.queues| ==> FrontDropped(s, s.queues[u], r.queues[u])
  {
    hide Core, GrantHead, DiscardCompleted, FrontDropped;
    var t := s.ring[0];
    var p := TakeHead(c, s);
    DiscardDrops(c, p, t);
    DiscardQueue(c, p, t);
    DropsSame(p, s, s.queues[t], DiscardCompleted(c, p, t).queues[t]);
    forall u | 0 <= u < |s.queues| ensures FrontDropped(s, s.queues[u], s.queues[u]) {
      DropNothing(s, s.queues[u]);
    }
  }

  lemma {:induction false} ScanDrops(c: Config, s: State, n: nat)
    requires Inv(c, s) && n <= |s.ring| && s.globalInflight < c.globalMaxInflight && !Scan(c, s, n).granted
    ensures var r := Scan(c, s, n).state;
      && r.waiters == s.waiters && |r.queues| == |s.queues|
      && forall u :: 0 <= u < |s.queues| ==> FrontDropped(s, s.queues[u], r.queues[u])
    decreases n
  {
    hide Inv, Core, Examine, FrontDropped;
    if n > 0 {
      ExamineKeeps(c, s);
      ExamineDrops(c, s);
      var m := Examine(c, s).state;
      ScanDrops(c, m, n - 1);
      forall u | 0 <= u < |s.queues| ensures FrontDropped(s, s.queues[u], Scan(c, s, n).state.queues[u]) {
        DropsSame(m, s, m.queues[u], Scan(c, s, n).state.queues[u]);
        DropMore(s, s.queues[u], m.queues[u], Scan(c, s, n).state.queues[u]);
      }
    } else {
      forall u | 0 <= u < |s.queues| ensures FrontDropped(s, s.queues[u], s.queues[u]) {
        DropNothing(s, s.queues[u]);
      }
    }
  }

  /** What the dispatch at the beginning of `acquire` does: while the gateway is full, nothing;
      otherwise it drops the waiters at the front of each queue whose future is done. */
  ghost predicate Cleared(c: Config, s: State, queues: seq<seq<nat>>) {
    && |queues| == |s.queues|
    && (s.globalInflight >= c.globalMaxInflight ==> queues == s.queues)
    && (forall u :: 0 <= u < |s.queues| ==> FrontDropped(s, s.queues[u], queues[u]))
    && (s.globalInflight < c.globalMaxInflight ==> forall u :: 0 <= u < |queues| && queues[u] != [] ==>
          queues[u][0] < |s.waiters| && s.waiters[queues[u][0]].future == Unresolved)
  }

  lemma DispatchClears(c: Config, s: State)
    requires Good(c, s) && !s.closed
    ensures var d := Dispatch(c, s);
      && Good(c, d) && Cleared(c, s, d.queues) && !d.closed && d.waiters == s.waiters && d.inflight == s.inflight
      && d.globalInflight == s.globalInflight && d.leases == s.leases
  {
    hide Good, Inv, Core, Scan, FrontDropped;
    var d := Dispatch(c, s);
    DispatchGood(c, s);
    DispatchQuiet(c, s);
    forall u | 0 <= u < |s.queues| ensures FrontDropped(s, s.queues[u], s.queues[u]) {
      DropNothing(s, s.queues[u]);
    }
    if s.globalInflight < c.globalMaxInflight {
      if s.ring != [] {
        ScanFindsNothing(c, s, |s.ring|);
        ScanDrops(c, s, |s.ring|);
        ScanRefuses(c, s, |s.ring|);
      }
      QuietFronts(c, d);
    }
  }

  lemma QuietFronts(c: Config, s: State)
    requires Inv(c, s) && Quiet(c, s) && !s.closed && s.globalInflight < c.globalMaxInflight
    ensures forall u :: 0 <= u < |s.queues| && s.queues[u] != [] ==>
      s.queues[u][0] < |s.waiters| && s.waiters[s.queues[u][0]].future == Unresolved
  {
    hide Core;
    forall u | 0 <= u < |s.queues| && s.queues[u] != []
      ensures s.queues[u][0] < |s.waiters| && s.waiters[s.queues[u][0]].future == Unresolved
    {
      assert u in s.ring;
      QuietSettles(c, s, u);
    }
  }

  /** What an arrival of tenant `t` finds and gets, when these are the queues. */
  ghost predicate Decides(c: Config, s: State, t: nat, queues: seq<seq<nat>>, a: Acquired)
    requires t < |c.tenants| && t < |queues| && t < |s.inflight|
  {
    var r, cap := a.state, c.tenants[t];
    if s.inflight[t] < cap.maxInflight && s.globalInflight < c.globalMaxInflight then
      && a.outcome == Admitted(|s.leases|) && r.leases == s.leases + [Lease(t, false, Caller)]
      && r.inflight == s.inflight[t := s.inflight[t] + 1] && r.globalInflight == s.globalInflight + 1
      && r.waiters == s.waiters && r.queues == queues
    else
      && r.leases == s.leases && r.inflight == s.inflight && r.globalInflight == s.globalInflight
      && if |queues[t]| < cap.maxQueue && Total(queues, Length()) < c.globalMaxQueue then
           && a.outcome == Queued(|s.waiters|) && r.waiters == s.waiters + [Waiter(t, Unresolved, true)]
           && r.queues == queues[t := queues[t] + [|s.waiters|]]
         else
           && a.outcome == Refused(if |queues[t]| >= cap.maxQueue then TenantQueueFull else GatewayQueueFull)
           && r.waiters == s.waiters && r.queues == queues
  }

  /** An arrival of tenant `t` at an open gateway is admitted exactly if both the tenant and the
      gateway have a free place. Otherwise it is refused if the queue of the tenant is full, or
      the gateway holds as many queued waiters as it may; and else it waits at the end of the
      queue of its tenant. `queues` are the queues without the done waiters at their fronts. */
  lemma AcquireDecides(c: Config, s: State, t: nat) returns (queues: seq<seq<nat>>)
    requires Good(c, s) && !s.closed && t < |c.tenants|
    ensures Cleared(c, s, queues) && t < |queues| && t < |s.inflight|
    ensures Decides(c, s, t, queues, Acquire(c, s, t))
  {
    hide Good, Dispatch, Cleared, Core;
    var d := Dispatch(c, s);
    DispatchClears(c, s);
    AcquireSimplified(c, s, t);
    QueuedTotal(c, d);
    queues := d.queues;
    assert |d.queues| == |c.tenants|;
  }

  lemma QueuedTotal(c: Config, s: State)
    requires Core(c, s)
    ensures s.globalQueued == Total(s.queues, Length())
  {
  }

  /** Everybody else is refused: a closed gateway, and a tenant it does not know. */
  lemma AcquireUnavailable(c: Config, s: State, t: nat)
    requires Shaped(c, s)
    ensures Acquire(c, s, t).outcome == Refused(AdmissionUnavailable) <==> s.closed || t >= |c.tenants|
    ensures s.closed || t >= |c.tenants| ==> Step(c, s, AcquireBy(t)) == s
  {
    hide Dispatch;
  }

  // ---------------------------------------------------------------- leaving

  lemma GoneIsUnqueued(c: Config, s: State, w: nat)
    requires Inv(c, s) && w < |s.waiters| && !s.waiters[w].awaited
    ensures forall u :: 0 <= u < |s.queues| ==> w !in s.queues[u]
  {
    hide Inv;
    forall u | 0 <= u < |s.queues| ensures w !in s.queues[u] {
      QueuedWaits(c, s, u);
    }
  }

  /** A waiter that times out or is cancelled is in no queue any more. A cancelled one gives back
      the lease its future holds; one that timed out keeps it taken, and nobody holds it. */
  lemma LeaverIsGone(c: Config, s: State, e: Event, w: nat)
    requires Good(c, s) && (e == TimeOut(w) || e == Cancel(w))
    requires w < |s.waiters| && s.waiters[w].awaited && s.waiters[w].future != Unresolved
    ensures var r := Step(c, s, e); var f := s.waiters[w].future;
      && w < |r.waiters| && !r.waiters[w].awaited && r.waiters[w].future == f
      && (forall u :: 0 <= u < |r.queues| ==> w !in r.queues[u])
      && (f.Granted? ==>
            && f.lease < |s.leases| <= |r.leases|
            && if e == Cancel(w) then r.leases[f.lease].released
               else r.leases[f.lease] == Lease(s.waiters[w].tenant, false, Nobody))
  {
    hide Inv, Core, Dispatch, Conserved, RemoveWaiter;
    var p := RemoveWaiter(c, s, w);
    RemoveWaiterKeeps(c, s, w);
    LeaveKeeps(c, p, w, Nobody);
    var q, f := Leave(c, p, w, Nobody), s.waiters[w].future;
    DispatchExtends(c, q);
    if f.Granted? {
      PendingLease(c, s, w);
      NotQueued(c, s, w);
      ReleaseKeeps(c, q, f.lease);
      ReleaseMarks(c, q, f.lease);
      DispatchExtends(c, ReleaseLocked(c, q, f.lease));
    }
    StepGood(c, s, e);
    StepExtends(c, s, e);
    GoneIsUnqueued(c, Step(c, s, e), w);
  }

  /** Every waiter can give up: its future is cancelled, which changes nothing else, and then its
      call ends by the timeout or the cancellation and it is in no queue any more. */
  lemma WaiterGivesUp(c: Config, s: State, e: Event, w: nat)
    requires Good(c, s) && (e == TimeOut(w) || e == Cancel(w))
    requires w < |s.waiters| && s.waiters[w].future == Unresolved
    ensures s.waiters[w].awaited && w in s.queues[s.waiters[w].tenant]
    ensures Step(c, s, Kill(w)) == s.(waiters := s.waiters[w := s.waiters[w].(future := Dead)])
    ensures var r := Step(c, Step(c, s, Kill(w)), e);
      && w < |r.waiters| && !r.waiters[w].awaited && r.waiters[w].future == Dead
      && forall u :: 0 <= u < |r.queues| ==> w !in r.queues[u]
  {
    hide Core, Conserved;
    UnresolvedWaits(c, s, w);
    StepGood(c, s, Kill(w));
    LeaverIsGone(c, Step(c, s, Kill(w)), e, w);
  }

  lemma UnresolvedWaits(c: Config, s: State, w: nat)
    requires Inv(c, s) && w < |s.waiters| && s.waiters[w].future == Unresolved
    ensures s.waiters[w].awaited && w in s.queues[s.waiters[w].tenant]
  {
    hide Accounted, Bounded, Owned, Fifo, RingExact;
    var q := s.queues[s.waiters[w].tenant];
    var i :| 0 <= i < |q| && q[i] == w;
    assert Waits(s, q[i], s.waiters[w].tenant);
  }

  lemma ReleaseMarks(c: Config, s: State, l: nat)
    requires Inv(c, s) && l < |s.leases|
    ensures ReleaseLocked(c, s, l).leases == s.leases[l := s.leases[l].(released := true)]
    ensures ReleaseLocked(c, s, l).waiters == s.waiters && ReleaseLocked(c, s, l).queues == s.queues
  {
    if !s.leases[l].released {
      ReleaseAccounted(c, s, l);
    } else {
      assert s.leases[l := s.leases[l]] == s.leases;
    }
  }

  /** A release marks its lease and no other; the leases granted by it are in the futures of waiters. */
  lemma ReleaseFreesPlace(c: Config, s: State, l: nat)
    requires Good(c, s) && l < |s.leases| && s.leases[l].holder == Caller
    ensures var r := Step(c, s, Release(l));
      && s.leases[l := s.leases[l].(released := true)] <= r.leases
      && forall k :: |s.leases| <= k < |r.leases| ==>
        && r.leases[k].holder.Pending? && !r.leases[k].released
        && r.leases[k].holder.waiter < |s.waiters| && s.waiters[r.leases[k].holder.waiter].future == Unresolved
        && r.waiters[r.leases[k].holder.waiter].future == Granted(k)
  {
    hide Core, Dispatch, Conserved;
    ReleaseKeeps(c, s, l);
    ReleaseMarks(c, s, l);
    var m := ReleaseLocked(c, s, l);
    DispatchExtends(c, m);
    StepGood(c, s, Release(l));
    StepExtends(c, s, Release(l));
    var r := Step(c, s, Release(l));
    PendingHeld(c, r);
    GrantsExist(c, s);
    assert |r.waiters| == |s.waiters|;
    forall k | |s.leases| <= k < |r.leases| ensures
      r.leases[k].holder.Pending? && !r.leases[k].released
      && r.leases[k].holder.waiter < |s.waiters| && s.waiters[r.leases[k].holder.waiter].future == Unresolved
    {
      var w := r.leases[k].holder.waiter;
      assert r.waiters[w].future == Granted(k);
    }
  }

  lemma PendingHeld(c: Config, s: State)
    requires Core(c, s)
    ensures forall l :: 0 <= l < |s.leases| && s.leases[l].holder.Pending? ==>
      && s.leases[l].holder.waiter < |s.waiters|
      && s.waiters[s.leases[l].holder.waiter].future == Granted(l) && !s.leases[l].released
  {
  }

  lemma GrantsExist(c: Config, s: State)
    requires Shaped(c, s)
    ensures forall w :: 0 <= w < |s.waiters| && s.waiters[w].future.Granted? ==> s.waiters[w].future.lease < |s.leases|
  {
  }

  /** The call of a waiter returns: with its lease, which the caller holds from then on, or
      because the gateway has become unavailable. */
  lemma DeliverHandsOver(c: Config, s: State, w: nat)
    requires Shaped(c, s) && w < |s.waiters| && s.waiters[w].awaited
    requires s.waiters[w].future.Granted? || s.waiters[w].future == Unavailable
    ensures var f := s.waiters[w].future; var r := Step(c, s, Deliver(w));
      r == s.(waiters := s.waiters[w := s.waiters[w].(awaited := false)],
              leases := if f.Granted? then s.leases[f.lease := s.leases[f.lease].(holder := Caller)] else s.leases)
  {
  }

  // ---------------------------------------------------------------- shutdown

  /** Shutdown fails exactly the waiters that had no result, as unavailable; it empties every
      queue and takes no lease away. */
  lemma CloseFailsWaiters(c: Config, s: State)
    requires Good(c, s) && !s.closed
    ensures var r := Step(c, s, Close);
      && r == s.(closed := true, waiters := r.waiters, queues := r.queues, ring := [], ringIds := {}, globalQueued := 0)
      && |r.waiters| == |s.waiters| && |r.queues| == |s.queues|
      && (forall u :: 0 <= u < |r.queues| ==> r.queues[u] == [])
      && (forall w :: 0 <= w < |s.waiters| ==>
            r.waiters[w] == if s.waiters[w].future == Unresolved then s.waiters[w].(future := Unavailable) else s.waiters[w])
  {
    hide Owned, Fifo, RingExact, Bounded, Conserved;
    forall w | 0 <= w < |s.waiters| && s.waiters[w].future == Unresolved ensures InSomeQueue(s.queues, w) {
      assert w in s.queues[s.waiters[w].tenant];
    }
  }
}
