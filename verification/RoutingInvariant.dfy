/** What every step of the pool keeps: the loads are the unreleased weights, every operation
    owns its lease until it ends and reports once, and closing captures all that is left. */
module RoutingInvariant {
  import opened Collections
  import opened RoutingModel
  import opened RoutingSelection

  /** What a lease adds to the load of backend `i`. */
  function Load(i: nat): Lease -> int {
    (l: Lease) => if l.released || l.slot != i then 0 else l.weight
  }

  ghost predicate Accounted(s: State) {
    && !s.fault
    && (forall i :: 0 <= i < |s.slots| ==> s.slots[i].inflight == Total(s.leases, Load(i)))
    && (forall l: nat :: l in s.active <==> l < |s.leases| && !s.leases[l].released)
    && (forall l :: 0 <= l < |s.leases| ==> s.leases[l].weight > 0)
  }

  /** The relay and the iterator of a stream, its phase and the release of the admission lease.
      A relay that waits for a close is a cancelled one: behind its loop the stream is closed.
      A relay that has reported an outcome has seen the stream closed. */
  predicate StreamFits(op: Op) {
    && op.admissionReleases == (if op.relay.RelayEnded? || (op.relay.NoRelay? && op.phase.Ended?) then 1 else 0)
    && (op.phase.Calling? ==> op.relay.NoRelay?)
    && (op.phase.Streaming? ==> op.relay.Relaying?)
    && (op.phase.Closing? ==>
          match op.phase.closer
          case Opener => op.relay.NoRelay?
          case ByRelay => op.relay.RelayClosing?
          case ByIterator => !op.relay.NoRelay? && op.iteration.Finishing?
          case Other => !op.relay.NoRelay?)
    && (op.relay.NoRelay? ==> op.iteration.Iterating?)
    && (!op.iteration.Iterating? ==> op.phase.Closing? || op.phase.Ended?)
    && (op.iteration == Over(Exhausted) || op.iteration == Over(RaisedError) ==> op.phase.Ended?)
    && (op.relay.RelayClosing? ==> op.relay.outcome.RelayCancelled?)
    && (op.relay.RelayEnded? && op.relay.report.Some? ==> op.phase.Ended?)
  }

  /** One operation, its lease, and its place among the registered streams. */
  predicate Fits(op: Op, lease: Lease, registered: bool, closed: bool) {
    && lease.weight == op.kind.Weight()
    && (op.phase.Ended? ==> lease.released)
    && (lease.released && !op.phase.Ended? ==> closed)
    && |op.reports| == (if op.phase.Ended? && !op.fatal then 1 else 0)
    && (op.fatal ==> op.phase.Ended? && !op.kind.Stream?)
    && (registered <==> !op.relay.NoRelay? && !op.phase.Ended?)
    && (if op.kind.Stream? then StreamFits(op)
        else (op.phase.Calling? || op.phase.Ended?) && op.relay.NoRelay? && op.iteration.Iterating?
             && op.admissionReleases == 0)
  }

  ghost predicate Owned(s: State)
    requires Shaped(s)
  {
    && (forall o :: 0 <= o < |s.ops| ==> Fits(s.ops[o], s.leases[o], o in s.streams, s.closed))
    && (forall o :: o in s.streams ==> o < |s.ops|)
  }

  ghost predicate Captured(s: State) {
    && (s.closed <==> !s.shutdown.Running?)
    && match s.shutdown
       case Running => true
       case Draining(leases, streams) => s.active <= leases && streams >= s.streams
       case Releasing(leases) => s.active <= leases
       case Finished => s.active == {} && !AnyHealthy(s.slots)
       case Aborted => true
  }

  ghost predicate Inv(s: State)
    ensures Inv(s) ==> Shaped(s)
  {
    Shaped(s) && Accounted(s) && Owned(s) && Captured(s)
  }

  lemma InitialInv(n: nat)
    requires n > 0
    ensures Inv(Initial(n))
  {
  }

  // ---------------------------------------------------------------- accounting

  /** The load of a lease's backend covers the lease, so releasing it never faults. */
  lemma LoadCovers(s: State, l: nat)
    requires Shaped(s) && Accounted(s) && l < |s.leases| && !s.leases[l].released
    ensures s.slots[s.leases[l].slot].inflight >= s.leases[l].weight
  {
    TotalBounds(s.leases, Load(s.leases[l].slot), l);
  }

  lemma ReleaseKeeps(s: State, l: nat)
    requires Shaped(s) && Accounted(s) && l < |s.leases|
    ensures Accounted(Release(s, l)) && Release(s, l).leases[l].released
  {
    if !s.leases[l].released {
      LoadCovers(s, l);
      var r := Release(s, l);
      forall i | 0 <= i < |s.slots| ensures r.slots[i].inflight == Total(r.leases, Load(i)) {
        TotalUpdate(s.leases, l, r.leases[l], Load(i));
      }
    }
  }

  /** A new lease on backend `i` adds its weight there and nowhere else. */
  lemma GrantKeeps(s: State, i: nat, weight: nat, r: State)
    requires Shaped(s) && Accounted(s) && i < |s.slots| && weight > 0
    requires r.slots == AddLoad(s.slots, i, weight) && r.leases == s.leases + [Lease(i, weight, false)]
    requires r.active == s.active + {|s.leases|} && r.fault == s.fault
    ensures Accounted(r)
  {
    forall k | 0 <= k < |s.slots| ensures r.slots[k].inflight == Total(r.leases, Load(k)) {
      TotalAppend(s.leases, Lease(i, weight, false), Load(k));
    }
  }

  // ---------------------------------------------------------------- steps

  lemma BeginKeeps(s: State, kind: Kind)
    requires Inv(s)
    ensures Inv(Begin(s, kind))
  {
    hide Search, LeastLoaded, Total, Accounted, Fits;
    var r := Begin(s, kind);
    if r != s {
      ChosenExactly(s.slots, s.cursor);
      GrantKeeps(s, Chosen(s.slots, s.cursor).value, kind.Weight(), r);
      NewFits(kind, Chosen(s.slots, s.cursor).value, s.closed);
    }
  }

  lemma NewFits(kind: Kind, i: nat, closed: bool)
    ensures Fits(Op(kind, Calling, [], false, Iterating, NoRelay, 0), Lease(i, kind.Weight(), false), false, closed)
  {
  }

  lemma SetHealthKeeps(s: State, i: nat, healthy: bool)
    requires Inv(s) && i < |s.slots|
    ensures Inv(SetHealth(s, i, healthy))
  {
  }

  /** Replacing an operation by one that still fits its unchanged lease. */
  lemma WithOpKeeps(s: State, o: nat, op: Op, registered: bool)
    requires Inv(s) && o < |s.ops| && (registered ==> o in s.streams || !s.closed)
    requires Fits(op, s.leases[o], registered, s.closed)
    ensures Inv(WithOp(s, o, op).(streams := if registered then s.streams + {o} else s.streams - {o}))
  {
    hide Fits, Total;
  }

  /** Replacing an operation by its ended form while its lease is released. */
  lemma EndKeeps(s: State, o: nat, op: Op)
    requires Inv(s) && o < |s.ops| && op.phase.Ended?
    requires Fits(op, s.leases[o].(released := true), false, s.closed)
    ensures Inv(WithOp(Release(s, o), o, op).(streams := s.streams - {o}))
  {
    hide Fits, Accounted, AnyHealthy;
    ReleaseKeeps(s, o);
    var r := WithOp(Release(s, o), o, op).(streams := s.streams - {o});
    EndedAccounted(Release(s, o), r);
    ReleasedLease(s, o);
    HealthKept(s, o);
  }

  lemma EndedAccounted(s: State, r: State)
    requires Accounted(s) && r == s.(ops := r.ops, streams := r.streams)
    ensures Accounted(r)
  {
  }

  lemma ReleasedLease(s: State, o: nat)
    requires Shaped(s) && Accounted(s) && o < |s.leases|
    ensures Release(s, o).leases == s.leases[o := s.leases[o].(released := true)]
    ensures Release(s, o).active == s.active - {o}
  {
    if !s.leases[o].released {
      LoadCovers(s, o);
    }
  }

  lemma HealthKept(s: State, o: nat)
    requires Shaped(s) && o < |s.leases|
    ensures AnyHealthy(Release(s, o).slots) <==> AnyHealthy(s.slots)
  {
    var r := Release(s, o);
    assert forall i :: 0 <= i < |s.slots| ==> r.slots[i].health == s.slots[i].health;
  }

  lemma CallEndsKeeps(s: State, o: nat, how: CallEnd)
    requires Inv(s) && o < |s.ops| && s.ops[o].phase.Calling?
    ensures Inv(CallEnds(s, o, how))
  {
    hide Accounted, Captured;
    var op := s.ops[o];
    if op.kind.Stream? && how.Returned? {
      if s.closed {
        WithOpKeeps(s, o, op.(phase := Closing(Error, Opener)), false);
        assert s.streams == s.streams - {o};
      } else {
        WithOpKeeps(s, o, op.(phase := Streaming, relay := Relaying), true);
      }
    } else {
      var marked := if how.HealthFailure? then SetHealth(s, s.leases[o].slot, false) else s;
      SetHealthKeeps(s, s.leases[o].slot, false);
      var last := CallEnds(s, o, how).ops[o];
      EndKeeps(marked, o, last);
      assert s.streams == s.streams - {o};
    }
  }

  lemma FinishKeeps(s: State, o: nat)
    requires Inv(s) && o < |s.ops|
    ensures Inv(Finish(s, o, Cancelled, Other))
  {
    hide Accounted, Captured;
    if s.ops[o].phase.Streaming? {
      WithOpKeeps(s, o, s.ops[o].(phase := Closing(Cancelled, Other)), true);
      assert s.streams == s.streams + {o};
    }
  }

  /** Replacing an operation that stays registered or unregistered as it is. */
  lemma SameRegistration(s: State, o: nat, op: Op)
    requires Inv(s) && o < |s.ops| && Fits(op, s.leases[o], o in s.streams, s.closed)
    ensures Inv(WithOp(s, o, op))
  {
    hide Accounted, Captured, Inv, Fits;
    WithOpKeeps(s, o, op, o in s.streams);
    assert s.streams == if o in s.streams then s.streams + {o} else s.streams - {o};
  }

  lemma IterationEndsKeeps(s: State, o: nat, how: IterationEnd)
    requires Inv(s) && Enabled(s, IterationEnded(o, how))
    ensures Inv(IterationEnds(s, o, how))
  {
    hide Accounted, Captured, SetHealth;
    SetHealthKeeps(s, s.leases[o].slot, false);
    var marked := if how.IterationHealthFailure? then SetHealth(s, s.leases[o].slot, false) else s;
    var r := IterationEnds(s, o, how);
    SameRegistration(marked, o, r.ops[o]);
    assert r == WithOp(marked, o, r.ops[o]);
  }

  lemma IteratorStopsKeeps(s: State, o: nat, woken: bool)
    requires Inv(s) && Enabled(s, if woken then IteratorWoken(o) else IteratorCancelledWaiting(o))
    ensures Inv(IteratorStops(s, o, woken))
  {
    hide Accounted, Captured;
    SameRegistration(s, o, IteratorStops(s, o, woken).ops[o]);
  }

  lemma StreamClosesKeeps(s: State, o: nat, how: LeafClose)
    requires Inv(s) && o < |s.ops| && s.ops[o].phase.Closing?
    ensures Inv(StreamCloses(s, o, how))
  {
    hide Accounted, Captured;
    EndKeeps(s, o, StreamCloses(s, o, how).ops[o]);
  }

  lemma RelayClosesKeeps(s: State, o: nat, outcome: RelayOutcome)
    requires Inv(s) && Enabled(s, RelayClosed(o, outcome))
    ensures Inv(RelayCloses(s, o, outcome))
  {
    hide Accounted, Captured;
    var op := s.ops[o];
    if op.relay.Relaying? {
      var r := RelayCloses(s, o, outcome);
      SameRegistration(s, o, r.ops[o]);
      assert r == WithOp(s, o, r.ops[o]);
    }
  }

  /** The relay stops waiting, woken or interrupted. */
  lemma RelayEndsKeeps(s: State, o: nat, report: Option<RelayOutcome>)
    requires Inv(s) && o < |s.ops| && s.ops[o].relay.RelayClosing?
    requires s.ops[o].phase.Ended? || (report.None? && s.ops[o].phase.Closing? && !s.ops[o].phase.closer.ByRelay?)
    ensures Inv(WithOp(s, o, EndRelay(s.ops[o], report)))
  {
    hide Accounted, Captured;
    SameRegistration(s, o, EndRelay(s.ops[o], report));
  }

  lemma PoolClosesKeeps(s: State)
    requires Inv(s)
    ensures Inv(PoolCloses(s))
  {
  }

  /** The releases of `close`: an operation still running will find its lease released. */
  lemma CloseReleaseKeeps(s: State, l: nat)
    requires Inv(s) && s.closed && l < |s.leases|
    ensures Inv(Release(s, l))
  {
    hide Accounted, AnyHealthy;
    ReleaseKeeps(s, l);
    ReleasedLease(s, l);
    HealthKept(s, l);
  }

  /** Once the captured leases are released nothing is left, and marking every backend
      unhealthy makes that final. */
  lemma CloseEndsKeeps(s: State)
    requires Inv(s) && Enabled(s, CloseEnds)
    ensures Inv(Step(s, CloseEnds))
  {
    hide Fits;
    var r := Step(s, CloseEnds);
    assert s.active == {};
    assert !AnyHealthy(r.slots);
  }

  lemma StepKeeps(s: State, e: Event)
    requires Inv(s)
    ensures Inv(Step(s, e))
  {
    hide Accounted, Owned, Captured, Begin, CallEnds, IterationEnds, StreamCloses, RelayCloses, PoolCloses,
      SetHealth, Release;
    if Enabled(s, e) {
      match e
      case Begins(kind) => BeginKeeps(s, kind);
      case CallEnded(o, how) => CallEndsKeeps(s, o, how);
      case IterationEnded(o, how) => IterationEndsKeeps(s, o, how);
      case IteratorWoken(o) => IteratorStopsKeeps(s, o, true);
      case IteratorCancelledWaiting(o) => IteratorStopsKeeps(s, o, false);
      case StreamAbandoned(o) => FinishKeeps(s, o);
      case StreamClosed(o, how) => StreamClosesKeeps(s, o, how);
      case RelayClosed(o, outcome) => RelayClosesKeeps(s, o, outcome);
      case RelayWoken(o) => RelayEndsKeeps(s, o, Some(s.ops[o].relay.outcome));
      case RelayCancelledWaiting(o) => RelayEndsKeeps(s, o, None);
      case Probed(i, healthy) => SetHealthKeeps(s, i, healthy);
      case CloseBegins => PoolClosesKeeps(s);
      case StreamsDrained => ShutdownKeeps(s, Releasing(s.shutdown.leases));
      case CloseReleases(l) => OpenOrClosing(s); CloseReleaseKeeps(s, l);
      case CloseEnds => CloseEndsKeeps(s);
      case CloseCancelledMidway => ShutdownKeeps(s, Aborted);
    }
  }

  lemma OpenOrClosing(s: State)
    requires Inv(s)
    ensures s.closed <==> !s.shutdown.Running?
  {
  }

  lemma ShutdownKeeps(s: State, next: Shutdown)
    requires Inv(s) && (s.shutdown.Draining? || s.shutdown.Releasing?)
    requires next.Aborted? || (next.Releasing? && next.leases == s.shutdown.leases)
    ensures Inv(s.(shutdown := next))
  {
    hide Fits;
  }

  lemma {:induction false} RunKeeps(s: State, es: seq<Event>)
    requires Inv(s)
    ensures Inv(Run(s, es))
    decreases |es|
  {
    hide Inv;
    if es != [] {
      StepKeeps(s, es[0]);
      RunKeeps(Step(s, es[0]), es[1..]);
    }
  }
}
