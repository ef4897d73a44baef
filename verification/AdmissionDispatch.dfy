/** The dispatch loop: it keeps the invariant, stops only when nothing more can be
    granted, and changes nothing when run again. */
module AdmissionDispatch {
  import opened AdmissionModel
  import opened AdmissionInvariant

  /** Admission is open and could grant `t` a waiting slot. */
  predicate HasLive(s: State, t: nat) {
    t < |s.queues| && exists i ::
      0 <= i < |s.queues[t]| && s.queues[t][i] < |s.waiters|
      && s.waiters[s.queues[t][i]].future.Unresolved?
  }

  /** Work conservation: a tenant waits only for a full gateway or for its own cap. */
  predicate Conserved(c: Config, s: State)
    requires Shaped(c, s)
  {
    s.closed || s.globalInflight >= c.globalMaxInflight ||
    forall t :: 0 <= t < |c.tenants| && HasLive(s, t) ==> s.inflight[t] >= c.tenants[t].maxInflight
  }

  lemma TakeHeadKeepsCore(c: Config, s: State)
    requires Core(c, s) && s.ring != []
    ensures Core(c, TakeHead(c, s))
  {
  }

  lemma ActivateKeepsCore(c: Config, s: State, t: nat)
    requires Core(c, s) && t < |c.tenants|
    ensures Core(c, Activate(s, t))
  {
  }

  /** One candidate: it leaves the front of the ring and comes back at the end
      exactly when it still has waiters. */
  lemma ExamineRing(c: Config, s: State)
    requires Inv(c, s) && s.ring != [] && s.globalInflight < c.globalMaxInflight
    ensures var r := Examine(c, s).state; var t := s.ring[0];
      && r.queues == s.queues[t := r.queues[t]]
      && r.ring == s.ring[1..] + (if r.queues[t] != [] then [t] else [])
      && r.ringIds == (if r.queues[t] != [] then s.ringIds else s.ringIds - {t})
  {
    hide Core, GrantHead, DiscardCompleted;
    var t := s.ring[0];
    var p := TakeHead(c, s);
    TakeHeadKeepsCore(c, s);
    DiscardKeepsCore(c, p, t);
    DiscardQueue(c, p, t);
    var d := DiscardCompleted(c, p, t);
    assert t in s.ring && t in s.ringIds && t !in d.ringIds;
    if d.queues[t] != [] && d.inflight[t] < c.tenants[t].maxInflight {
      GrantHeadIs(c, d, t);
    }
    assert s.ringIds - {t} + {t} == s.ringIds;
  }

  lemma ExamineCore(c: Config, s: State)
    requires Core(c, s) && s.ring != [] && s.globalInflight < c.globalMaxInflight
    ensures Core(c, Examine(c, s).state)
  {
    hide Core, GrantHead, Activate, DiscardCompleted;
    var t := s.ring[0];
    var p := TakeHead(c, s);
    TakeHeadKeepsCore(c, s);
    DiscardKeepsCore(c, p, t);
    DiscardQueue(c, p, t);
    var d := DiscardCompleted(c, p, t);
    if d.queues[t] != [] {
      if d.inflight[t] < c.tenants[t].maxInflight {
        GrantHeadKeepsCore(c, d, t);
      } else {
        ActivateKeepsCore(c, d, t);
      }
    }
  }

  lemma RingMoves(s: State, r: State)
    requires RingExact(s) && s.ring != []
    requires s.ring[0] < |s.queues| == |r.queues|
    requires r.queues == s.queues[s.ring[0] := r.queues[s.ring[0]]]
    requires r.ring == s.ring[1..] + (if r.queues[s.ring[0]] != [] then [s.ring[0]] else [])
    requires r.ringIds == (if r.queues[s.ring[0]] != [] then s.ringIds else s.ringIds - {s.ring[0]})
    ensures RingExact(r)
  {
    var t := s.ring[0];
    assert s.ring == [t] + s.ring[1..];
    forall u ensures u in r.ring <==> (u in s.ring && u != t) || (u == t && r.queues[t] != []) {
      assert u in r.ring <==> u in s.ring[1..] || (u == t && r.queues[t] != []);
      if u in s.ring[1..] {
        var i :| 0 <= i < |s.ring[1..]| && s.ring[1..][i] == u;
        assert s.ring[i + 1] == u;
      }
    }
  }

  lemma ExamineKeeps(c: Config, s: State)
    requires Inv(c, s) && s.ring != [] && s.globalInflight < c.globalMaxInflight
    ensures Inv(c, Examine(c, s).state)
  {
    ExamineCore(c, s);
    ExamineRing(c, s);
    RingMoves(s, Examine(c, s).state);
  }

  lemma {:induction false} ScanKeeps(c: Config, s: State, n: nat)
    requires Inv(c, s) && n <= |s.ring| && s.globalInflight < c.globalMaxInflight
    ensures Inv(c, Scan(c, s, n).state)
    decreases n
  {
    hide Inv, Core, Shaped, Examine;
    if n > 0 {
      ExamineKeeps(c, s);
      if !Examine(c, s).granted {
        ScanKeeps(c, Examine(c, s).state, n - 1);
      }
    }
  }

  lemma {:induction false} DispatchKeeps(c: Config, s: State)
    requires Inv(c, s)
    ensures Inv(c, Dispatch(c, s))
    decreases c.globalMaxInflight - s.globalInflight
  {
    hide Inv, Core, Shaped, Scan;
    if !(s.closed || s.globalInflight >= c.globalMaxInflight || s.ring == []) {
      ScanKeeps(c, s, |s.ring|);
      var pass := Scan(c, s, |s.ring|);
      if pass.granted {
        DispatchKeeps(c, pass.state);
      }
    }
  }

  /** A tenant whose queue, if any, starts with a live waiter and which is at its own cap. */
  predicate Settled(c: Config, s: State, t: nat)
    requires Shaped(c, s)
  {
    t < |c.tenants| && s.queues[t] != [] && s.waiters[s.queues[t][0]].future.Unresolved?
    && s.inflight[t] >= c.tenants[t].maxInflight
  }

  /** A candidate that is not granted is dropped, or kept at the end of the ring for being at its cap. */
  lemma ExamineRefuses(c: Config, s: State)
    requires Inv(c, s) && s.ring != [] && s.globalInflight < c.globalMaxInflight && !Examine(c, s).granted
    ensures var r := Examine(c, s).state; var t := s.ring[0];
      && r == s.(queues := r.queues, globalQueued := r.globalQueued, ring := r.ring, ringIds := r.ringIds)
      && (r.queues[t] != [] ==> Settled(c, r, t))
  {
    var t := s.ring[0];
    TakeHeadKeepsCore(c, s);
    DiscardQueue(c, TakeHead(c, s), t);
  }

  /** A whole pass without a grant leaves a ring of tenants that cannot be granted. */
  lemma {:induction false} ScanRefuses(c: Config, s: State, n: nat)
    requires Inv(c, s) && n <= |s.ring| && s.globalInflight < c.globalMaxInflight && !Scan(c, s, n).granted
    requires forall i :: n <= i < |s.ring| ==> Settled(c, s, s.ring[i])
    ensures var r := Scan(c, s, n).state;
      && r == s.(queues := r.queues, globalQueued := r.globalQueued, ring := r.ring, ringIds := r.ringIds)
      && forall i :: 0 <= i < |r.ring| ==> Settled(c, r, r.ring[i])
    decreases n
  {
    hide Inv, Core, Examine;
    if n > 0 {
      ExamineKeeps(c, s);
      ExamineRing(c, s);
      ExamineRefuses(c, s);
      var r := Examine(c, s).state;
      forall i | n - 1 <= i < |r.ring| ensures Settled(c, r, r.ring[i]) {
        var u := r.ring[i];
        if i < |s.ring| - 1 {
          assert u == s.ring[i + 1] && Settled(c, s, u) && u != s.ring[0];
          assert r.queues[u] == s.queues[u];
        } else {
          assert u == s.ring[0];
        }
      }
      ScanRefuses(c, r, n - 1);
    }
  }

  /** What every dispatch leaves behind: closed, full, or a ring of tenants at their caps. */
  ghost predicate Quiet(c: Config, s: State)
    requires Shaped(c, s)
  {
    s.closed || s.globalInflight >= c.globalMaxInflight ||
    forall i :: 0 <= i < |s.ring| ==> Settled(c, s, s.ring[i])
  }

  /** The tenants of `ring` that still have waiters, in their order. */
  function StillWaiting(ring: seq<nat>, queues: seq<seq<nat>>): seq<nat> {
    if ring == [] then []
    else (if ring[0] < |queues| && queues[ring[0]] != [] then [ring[0]] else []) + StillWaiting(ring[1..], queues)
  }

  /** A pass without a grant looks at `n` tenants and puts those that still have waiters
      behind the others, in the order in which they were. */
  lemma {:induction false} ScanKeepsOrder(c: Config, s: State, n: nat)
    requires Inv(c, s) && n <= |s.ring| && s.globalInflight < c.globalMaxInflight && !Scan(c, s, n).granted
    ensures var r := Scan(c, s, n).state;
      && r.ring == s.ring[n..] + StillWaiting(s.ring[..n], r.queues)
      && |r.queues| == |s.queues|
      && forall t :: 0 <= t < |s.queues| && t !in s.ring[..n] ==> r.queues[t] == s.queues[t]
    decreases n
  {
    hide Inv, Core, Examine;
    if n > 0 {
      ExamineKeeps(c, s);
      ExamineRing(c, s);
      var t, m := s.ring[0], Examine(c, s).state;
      ScanKeepsOrder(c, m, n - 1);
      var r := Scan(c, s, n).state;
      assert m.ring[..n - 1] == s.ring[..n][1..];
      assert m.ring[n - 1..] == s.ring[n..] + (if m.queues[t] != [] then [t] else []);
      assert t !in m.ring[..n - 1] && s.ring[..n][0] == t;
      assert r == Scan(c, m, n - 1).state && r.queues[t] == m.queues[t];
    }
  }

  lemma {:induction false} DispatchQuiet(c: Config, s: State)
    requires Inv(c, s)
    ensures Quiet(c, Dispatch(c, s))
    decreases c.globalMaxInflight - s.globalInflight
  {
    hide Inv, Core, Shaped, Scan;
    if !(s.closed || s.globalInflight >= c.globalMaxInflight || s.ring == []) {
      ScanKeeps(c, s, |s.ring|);
      var pass := Scan(c, s, |s.ring|);
      if pass.granted {
        DispatchQuiet(c, pass.state);
      } else {
        ScanRefuses(c, s, |s.ring|);
      }
    }
  }

  lemma QuietConserves(c: Config, s: State)
    requires Inv(c, s) && Quiet(c, s)
    ensures Conserved(c, s)
  {
    if !s.closed && s.globalInflight < c.globalMaxInflight {
      forall t | 0 <= t < |c.tenants| && HasLive(s, t) ensures s.inflight[t] >= c.tenants[t].maxInflight {
        assert t in s.ring;
        var i :| 0 <= i < |s.ring| && s.ring[i] == t;
        assert Settled(c, s, s.ring[i]);
      }
    }
  }

  lemma ExamineTurns(c: Config, s: State)
    requires Inv(c, s) && s.ring != [] && Settled(c, s, s.ring[0])
    ensures Examine(c, s) == Scanned(s.(ring := s.ring[1..] + [s.ring[0]]), false)
  {
    hide Core, GrantHead;
    var t := s.ring[0];
    assert t in s.ring && t in s.ringIds && s.ringIds - {t} + {t} == s.ringIds;
  }

  lemma TurnedSettled(c: Config, s: State, r: State, i: nat)
    requires Shaped(c, s) && Shaped(c, r) && s.ring != [] && r == s.(ring := s.ring[1..] + [s.ring[0]]) && i < |r.ring|
    requires forall k :: 0 <= k < |s.ring| ==> Settled(c, s, s.ring[k])
    ensures Settled(c, r, r.ring[i])
  {
    hide Shaped;
    var k := if i < |s.ring| - 1 then i + 1 else 0;
    assert r.ring[i] == s.ring[k] && Settled(c, s, s.ring[k]);
  }

  /** In a quiet state a pass only turns the ring once around. */
  lemma {:induction false} ScanTurns(c: Config, s: State, n: nat)
    requires Inv(c, s) && n <= |s.ring| && s.globalInflight < c.globalMaxInflight
    requires forall i :: 0 <= i < |s.ring| ==> Settled(c, s, s.ring[i])
    ensures Scan(c, s, n) == Scanned(s.(ring := s.ring[n..] + s.ring[..n]), false)
    decreases n
  {
    hide Inv, Core, Examine, Settled;
    if n == 0 {
      assert s.ring[0..] + s.ring[..0] == s.ring;
    } else {
      var t := s.ring[0];
      var r := s.(ring := s.ring[1..] + [t]);
      ExamineTurns(c, s);
      ExamineKeeps(c, s);
      forall i | 0 <= i < |r.ring| ensures Settled(c, r, r.ring[i]) {
        TurnedSettled(c, s, r, i);
      }
      ScanTurns(c, r, n - 1);
      assert r.ring[n - 1..] + r.ring[..n - 1] == s.ring[n..] + s.ring[..n];
    }
  }

  /** A second dispatch finds nothing to do. */
  lemma DispatchIdle(c: Config, s: State)
    requires Inv(c, s) && Quiet(c, s)
    ensures Dispatch(c, s) == s
  {
    if !(s.closed || s.globalInflight >= c.globalMaxInflight || s.ring == []) {
      ScanTurns(c, s, |s.ring|);
      assert s.ring[|s.ring|..] + s.ring[..|s.ring|] == s.ring;
    }
  }

  lemma DispatchIdempotent(c: Config, s: State)
    requires Inv(c, s)
    ensures Dispatch(c, Dispatch(c, s)) == Dispatch(c, s)
  {
    hide Inv, Core, Quiet, Shaped, Dispatch;
    DispatchKeeps(c, s);
    DispatchQuiet(c, s);
    DispatchIdle(c, Dispatch(c, s));
  }

  /** No barging: after a dispatch, room for `t` means that nobody of `t` is waiting. */
  lemma RoomMeansEmptyQueue(c: Config, s: State, t: nat)
    requires Inv(c, s) && Quiet(c, s) && !s.closed && t < |c.tenants| && CanAdmit(c, s, t)
    ensures s.queues[t] == []
  {
    QuietSettles(c, s, t);
  }

  lemma QuietSettles(c: Config, s: State, t: nat)
    requires Shaped(c, s) && Quiet(c, s) && !s.closed && s.globalInflight < c.globalMaxInflight
    ensures t in s.ring ==> Settled(c, s, t)
  {
    hide Settled, Shaped;
    if t in s.ring {
      var i :| 0 <= i < |s.ring| && s.ring[i] == t;
      assert Settled(c, s, s.ring[i]);
    }
  }
}
