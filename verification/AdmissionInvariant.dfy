/** What every step of the admission controller keeps. `Core` is everything but the
    ring; it holds again after each single candidate of the dispatch loop. */
module AdmissionInvariant {
  import opened Collections
  import opened AdmissionModel

  function Live(): Lease -> int { (l: Lease) => if l.released then 0 else 1 }

  /** Every counter is the total it stands for. */
  ghost predicate Accounted(c: Config, s: State)
    requires Shaped(c, s)
  {
    && s.globalInflight == Total(s.inflight, Itself())
    && s.globalInflight == Total(s.leases, Live())
    && s.globalQueued == Total(s.queues, Length())
    && forall t :: 0 <= t < |s.inflight| ==> s.inflight[t] == Total(s.leases, Unreleased(t))
  }

  ghost predicate Bounded(c: Config, s: State)
    requires Shaped(c, s)
  {
    && s.globalInflight <= c.globalMaxInflight
    && s.globalQueued <= c.globalMaxQueue
    && (forall t :: 0 <= t < |s.inflight| ==> 0 <= s.inflight[t] <= c.tenants[t].maxInflight)
    && (forall t :: 0 <= t < |s.queues| ==> |s.queues[t]| <= c.tenants[t].maxQueue)
  }

  /** A queue holds waiters of its own tenant in arrival order, still awaited and
      not granted; every unresolved waiter is in its tenant's queue. */
  ghost predicate Queueing(s: State) {
    && (forall t :: 0 <= t < |s.queues| ==> Increasing(s.queues[t]))
    && (forall t, i :: 0 <= t < |s.queues| && 0 <= i < |s.queues[t]| ==> Waits(s, s.queues[t][i], t))
    && (forall w :: 0 <= w < |s.waiters| && s.waiters[w].future.Unresolved? ==>
          s.waiters[w].tenant < |s.queues| && w in s.queues[s.waiters[w].tenant])
  }

  predicate Waits(s: State, w: nat, t: nat) {
    && w < |s.waiters| && s.waiters[w].tenant == t && s.waiters[w].awaited
    && (s.waiters[w].future.Unresolved? || s.waiters[w].future.Dead?)
  }

  /** A lease in the future of a pending call and that call point at each other. */
  ghost predicate Owned(s: State) {
    && (forall w :: 0 <= w < |s.waiters| && s.waiters[w].awaited && s.waiters[w].future.Granted? ==>
          && s.waiters[w].future.lease < |s.leases|
          && s.leases[s.waiters[w].future.lease] == Lease(s.waiters[w].tenant, false, Pending(w)))
    && (forall l :: 0 <= l < |s.leases| && s.leases[l].holder.Pending? ==>
          && s.leases[l].holder.waiter < |s.waiters|
          && s.waiters[s.leases[l].holder.waiter].awaited
          && s.waiters[s.leases[l].holder.waiter].future == Granted(l))
  }

  /** No waiter is granted over an earlier one of the same tenant that is still live. */
  ghost predicate Fifo(s: State) {
    forall v, w | 0 <= v < w < |s.waiters| && s.waiters[v].tenant == s.waiters[w].tenant ::
      s.waiters[w].future.Granted? ==> s.waiters[v].future.Done()
  }

  ghost predicate Core(c: Config, s: State)
    ensures Core(c, s) ==> Shaped(c, s) && !s.fault
  {
    && Shaped(c, s)
    && Accounted(c, s)
    && Bounded(c, s)
    && Queueing(s)
    && Owned(s)
    && Fifo(s)
    && (s.closed ==> forall t :: 0 <= t < |s.queues| ==> s.queues[t] == [])
    && !s.fault
  }

  /** The ring lists exactly the tenants with a non-empty queue, each once, and the id set agrees. */
  ghost predicate RingExact(s: State) {
    && NoDup(s.ring)
    && (forall t :: t in s.ring <==> t in s.ringIds)
    && (forall t: nat :: t in s.ring <==> t < |s.queues| && s.queues[t] != [])
  }

  ghost predicate Inv(c: Config, s: State)
    ensures Inv(c, s) ==> Core(c, s) && NoDup(s.ring)
  {
    Core(c, s) && RingExact(s)
  }

  /** The bookkeeping of moving from queues `q` to `q[t := x]`. */
  lemma QueueUpdate(q: seq<seq<nat>>, t: nat, x: seq<nat>)
    requires t < |q|
    ensures Total(q[t := x], Length()) == Total(q, Length()) - |q[t]| + |x|
  {
    TotalUpdate(q, t, x, Length());
  }

  lemma PopHeadKeepsCore(c: Config, s: State, t: nat)
    requires Core(c, s) && t < |c.tenants| && s.queues[t] != []
    requires s.waiters[s.queues[t][0]].future.Done()
    ensures Core(c, PopHead(c, s, t))
  {
    hide Queueing;
    QueueUpdate(s.queues, t, s.queues[t][1..]);
    PopHeadQueueing(c, s, t);
  }

  lemma PopHeadQueueing(c: Config, s: State, t: nat)
    requires Core(c, s) && t < |c.tenants| && s.queues[t] != []
    requires s.waiters[s.queues[t][0]].future.Done()
    ensures Queueing(PopHead(c, s, t))
  {
    hide Owned, Fifo, Accounted, Bounded;
    var r := PopHead(c, s, t);
    var q := s.queues[t];
    forall w | 0 <= w < |r.waiters| && r.waiters[w].future.Unresolved?
      ensures w in r.queues[r.waiters[w].tenant]
    {
      if r.waiters[w].tenant == t {
        var i :| 0 <= i < |q| && q[i] == w;
        assert r.queues[t][i - 1] == w;
      }
    }
  }

  lemma {:induction false} DiscardKeepsCore(c: Config, s: State, t: nat)
    requires Core(c, s) && t < |c.tenants|
    ensures Core(c, DiscardCompleted(c, s, t))
    decreases |s.queues[t]|
  {
    if s.queues[t] != [] && s.waiters[s.queues[t][0]].future.Done() {
      PopHeadKeepsCore(c, s, t);
      DiscardKeepsCore(c, PopHead(c, s, t), t);
    }
  }

  /** Discarding touches one queue, keeps its live waiters and leaves a live one in front. */
  lemma {:induction false} DiscardQueue(c: Config, s: State, t: nat)
    requires Shaped(c, s) && t < |c.tenants|
    ensures var d := DiscardCompleted(c, s, t);
      && d.queues == s.queues[t := d.queues[t]]
      && (d.queues[t] != [] ==> s.waiters[d.queues[t][0]].future.Unresolved?)
      && (forall w :: w in s.queues[t] && s.waiters[w].future.Unresolved? ==> w in d.queues[t])
      && (forall w :: w in d.queues[t] ==> w in s.queues[t])
    decreases |s.queues[t]|
  {
    if s.queues[t] != [] && s.waiters[s.queues[t][0]].future.Done() {
      var q, p := s.queues[t], PopHead(c, s, t);
      DiscardQueue(c, p, t);
      assert q == [q[0]] + q[1..];
    }
  }

  /** What a grant changes besides the ring. */
  lemma GrantHeadIs(c: Config, s: State, t: nat)
    requires Core(c, s) && t < |c.tenants| && CanAdmit(c, s, t)
    requires s.queues[t] != [] && s.waiters[s.queues[t][0]].future.Unresolved?
    ensures var g := GrantHead(c, s, t); var w := s.queues[t][0];
      && g == s.(inflight := s.inflight[t := s.inflight[t] + 1],
                 globalInflight := s.globalInflight + 1,
                 queues := s.queues[t := s.queues[t][1..]],
                 globalQueued := s.globalQueued - 1,
                 leases := s.leases + [Lease(t, false, Pending(w))],
                 waiters := s.waiters[w := s.waiters[w].(future := Granted(|s.leases|))],
                 ring := g.ring, ringIds := g.ringIds)
      && (g.ring, g.ringIds) == (var a := if |s.queues[t]| > 1 then Activate(s, t) else s; (a.ring, a.ringIds))
  {
  }

  lemma NewLease(c: Config, s: State, r: State, t: nat, holder: Holder)
    requires Core(c, s) && t < |c.tenants| && Shaped(c, r) && CanAdmit(c, s, t)
    requires r.inflight == s.inflight[t := s.inflight[t] + 1] && r.globalInflight == s.globalInflight + 1
    requires r.leases == s.leases + [Lease(t, false, holder)]
    requires r.globalQueued == Total(r.queues, Length())
    ensures Accounted(c, r)
  {
    var l := Lease(t, false, holder);
    TotalUpdate(s.inflight, t, s.inflight[t] + 1, Itself());
    TotalAppend(s.leases, l, Live());
    forall u | 0 <= u < |r.inflight| ensures r.inflight[u] == Total(r.leases, Unreleased(u)) {
      TotalAppend(s.leases, l, Unreleased(u));
    }
  }

  lemma GrantHeadQueueing(c: Config, s: State, t: nat)
    requires Core(c, s) && t < |c.tenants| && CanAdmit(c, s, t)
    requires s.queues[t] != [] && s.waiters[s.queues[t][0]].future.Unresolved?
    ensures Queueing(GrantHead(c, s, t))
  {
    hide Owned, Fifo, Accounted, Bounded, GrantHead;
    GrantHeadIs(c, s, t);
    var r, q := GrantHead(c, s, t), s.queues[t];
    assert Waits(s, q[0], t);
    forall w | 0 <= w < |r.waiters| && r.waiters[w].future.Unresolved?
      ensures w in r.queues[r.waiters[w].tenant]
    {
      if r.waiters[w].tenant == t {
        var i :| 0 <= i < |q| && q[i] == w;
        assert r.queues[t][i - 1] == w;
      }
    }
    forall u, i | 0 <= u < |r.queues| && 0 <= i < |r.queues[u]| ensures Waits(r, r.queues[u][i], u) {
      var j := if u == t then i + 1 else i;
      assert Waits(s, s.queues[u][j], u);
    }
  }

  /** Nobody of a tenant waits that came before the head of its queue. */
  lemma HeadIsFirst(c: Config, s: State, t: nat, v: nat)
    requires Core(c, s) && t < |c.tenants| && s.queues[t] != []
    requires v < |s.waiters| && s.waiters[v].tenant == t && s.waiters[v].future.Unresolved?
    ensures s.queues[t][0] <= v
  {
    var q := s.queues[t];
    var i :| 0 <= i < |q| && q[i] == v;
    assert i == 0 || q[0] < q[i];
  }

  lemma GrantHeadFifo(c: Config, s: State, t: nat)
    requires Core(c, s) && t < |c.tenants| && CanAdmit(c, s, t)
    requires s.queues[t] != [] && s.waiters[s.queues[t][0]].future.Unresolved?
    ensures Fifo(GrantHead(c, s, t))
  {
    GrantHeadIs(c, s, t);
    var r, q := GrantHead(c, s, t), s.queues[t];
    assert Waits(s, q[0], t);
    forall v, w | 0 <= v < w < |r.waiters| && r.waiters[v].tenant == r.waiters[w].tenant
      && r.waiters[w].future.Granted?
      ensures r.waiters[v].future.Done()
    {
      if s.waiters[v].future.Unresolved? && s.waiters[v].tenant == t {
        HeadIsFirst(c, s, t, v);
      }
    }
  }

  lemma GrantHeadOwned(c: Config, s: State, t: nat)
    requires Core(c, s) && t < |c.tenants| && CanAdmit(c, s, t)
    requires s.queues[t] != [] && s.waiters[s.queues[t][0]].future.Unresolved?
    ensures Owned(GrantHead(c, s, t))
  {
    GrantHeadIs(c, s, t);
    assert Waits(s, s.queues[t][0], t);
  }

  lemma GrantHeadKeepsCore(c: Config, s: State, t: nat)
    requires Core(c, s) && t < |c.tenants| && CanAdmit(c, s, t)
    requires s.queues[t] != [] && s.waiters[s.queues[t][0]].future.Unresolved?
    ensures Core(c, GrantHead(c, s, t))
  {
    GrantHeadIs(c, s, t);
    GrantHeadQueueing(c, s, t);
    GrantHeadFifo(c, s, t);
    GrantHeadOwned(c, s, t);
    QueueUpdate(s.queues, t, s.queues[t][1..]);
    NewLease(c, s, GrantHead(c, s, t), t, Pending(s.queues[t][0]));
  }
}
