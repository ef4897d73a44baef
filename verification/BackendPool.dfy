/** The pool itself: `BackendPool` of `gateway/routing/pool.py` with its routed streams and
    their relays, its tables updated in place, each method proved to be the step it stands for. */
module BackendPools {
  import opened Collections
  import opened RoutingModel
  import opened RoutingSelection
  import opened RoutingInvariant

  class BackendPool {
    var slots: seq<Slot>
    var cursor: nat
    var leases: seq<Lease>
    var active: set<nat>
    var streams: set<nat>
    var ops: seq<Op>
    var closed: bool
    var shutdown: Shutdown
    var fault: bool

    ghost function Value(): State
      reads this
    {
      State(slots, cursor, leases, active, streams, ops, closed, shutdown, fault)
    }

    ghost predicate Valid()
      reads this
    {
      Inv(Value())
    }

    constructor (backends: nat)
      requires backends > 0
      ensures Valid() && Value() == Initial(backends)
    {
      slots := seq(backends, _ => Slot(Unknown, 0));
      cursor, leases, active, streams, ops := 0, [], {}, {}, [];
      closed, shutdown, fault := false, Running, false;
      new;
      InitialInv(backends);
    }

    // -------------------------------------------------------------- selection

    /** The healthy backends, and the least load among them. */
    method HealthyAndMinimum() returns (healthy: set<nat>, minimum: int)
      ensures healthy == set i: nat | i < |slots| && slots[i].health.Healthy?
      ensures forall i :: i in healthy ==> minimum <= slots[i].inflight
      ensures healthy != {} ==> exists i :: i in healthy && slots[i].inflight == minimum
    {
      healthy, minimum := {}, 0;
      for k := 0 to |slots|
        invariant healthy == set i: nat | i < k && slots[i].health.Healthy?
        invariant forall i :: i in healthy ==> minimum <= slots[i].inflight
        invariant healthy != {} ==> exists i :: i in healthy && slots[i].inflight == minimum
      {
        if slots[k].health.Healthy? {
          if healthy == {} || slots[k].inflight < minimum {
            minimum := slots[k].inflight;
          }
          healthy := healthy + {k};
          assert k in healthy;
        }
      }
    }

    /** The search of `_select` for the first candidate from the cursor on. */
    method SelectSlot() returns (chosen: Option<nat>)
      requires cursor < |slots|
      ensures chosen == Chosen(slots, cursor)
      ensures chosen.Some? ==> chosen.value < |slots|
    {
      ChosenExactly(slots, cursor);
      var healthy, minimum := HealthyAndMinimum();
      if healthy == {} {
        return None;
      }
      var candidates := set i | i in healthy && slots[i].inflight == minimum;
      assert forall i: nat :: i in candidates <==> LeastLoaded(slots, i);
      var offset := 0;
      while offset < |slots|
        invariant offset <= |slots|
        invariant Search(slots, cursor, offset) == Chosen(slots, cursor)
      {
        if At(|slots|, cursor, offset) in candidates {
          return Some(At(|slots|, cursor, offset));
        }
        offset := offset + 1;
      }
      assert false;  // one of the candidates is met within one turn
    }

    /** The selection that starts `generate`, `stream` or `generate_batch`; without a backend,
        without requests or after closing there is no operation. */
    method BeginOperation(kind: Kind) returns (o: Option<nat>)
      requires Valid()
      modifies this
      ensures Valid() && Value() == Begin(old(Value()), kind)
      ensures o.Some? <==> kind.Weight() > 0 && !old(closed) && AnyHealthy(old(slots))
      ensures o.Some? ==> o.value == |old(ops)| < |ops| && ops[o.value].phase.Calling?
    {
      hide Inv, Search, Chosen, LeastLoaded, AnyHealthy;
      BeginKeeps(Value(), kind);
      ChosenExactly(slots, cursor);
      if kind.Weight() == 0 || closed {
        return None;
      }
      var chosen := SelectSlot();
      if chosen.None? {
        return None;
      }
      var i, weight := chosen.value, kind.Weight();
      slots := slots[i := slots[i].(inflight := slots[i].inflight + weight)];
      cursor := (i + 1) % |slots|;
      active := active + {|leases|};
      leases := leases + [Lease(i, weight, false)];
      o := Some(|ops|);
      ops := ops + [Op(kind, Calling, [], false, Iterating, NoRelay, 0)];
    }

    // -------------------------------------------------------------- critical sections

    method ReleaseLease(l: nat)
      requires Shaped(Value()) && Accounted(Value()) && l < |leases|
      modifies this`slots, this`leases, this`active
      ensures Shaped(Value()) && Accounted(Value()) && Value() == Release(old(Value()), l)
    {
      hide Accounted;
      ReleaseKeeps(Value(), l);
      var lease := leases[l];
      if lease.released {
        return;
      }
      LoadCovers(Value(), l);
      if slots[lease.slot].inflight < lease.weight {
        assert false;  // the accounting error cannot be raised
      }
      leases := leases[l := lease.(released := true)];
      slots := slots[lease.slot := slots[lease.slot].(inflight := slots[lease.slot].inflight - lease.weight)];
      active := active - {l};
    }

    method UpdateHealth(i: nat, healthy: bool)
      requires Valid() && i < |slots|
      modifies this`slots
      ensures Valid() && Value() == SetHealth(old(Value()), i, healthy)
    {
      hide Inv;
      SetHealthKeeps(Value(), i, healthy);
      if closed {
        return;
      }
      slots := slots[i := slots[i].(health := if healthy then Healthy else Unhealthy)];
    }

    // -------------------------------------------------------------- operations

    /** The backend call of an operation ends. */
    method OnCallEnds(o: nat, how: CallEnd)
      requires Valid() && o < |ops| && ops[o].phase.Calling?
      modifies this
      ensures Valid() && Value() == CallEnds(old(Value()), o, how)
    {
      hide Owned, Captured, Accounted, SetHealth, Release;
      CallEndsKeeps(Value(), o, how);
      if ops[o].kind.Stream? && how.Returned? {
        if closed {
          ops := ops[o := ops[o].(phase := Closing(Error, Opener))];
        } else {
          streams := streams + {o};
          ops := ops[o := ops[o].(phase := Streaming, relay := Relaying)];
        }
        return;
      }
      var op := ops[o];
      var report: Option<Outcome> := None;
      match how {
        case Returned => report := Some(Success);
        case CallCancelled => report := Some(Cancelled);
        case HealthFailure =>
          UpdateHealth(leases[o].slot, false);
          report := Some(Error);
        case Failure => report := Some(Error);
        case Fatal =>
          // only `stream` handles an exception outside `Exception`
          if op.kind.Stream? {
            report := Some(Error);
          }
      }
      if report.Some? {
        op := op.(reports := op.reports + [report.value]);
      } else {
        op := op.(fatal := true);
      }
      ReleaseLease(o);
      if op.kind.Stream? {
        op := op.(admissionReleases := op.admissionReleases + 1);
      }
      NotFatalYet(old(Value()), o);
      ops := ops[o := op.(phase := Ended)];
      assert op.reports == old(ops[o].reports) + Reported(report);
    }

    /** The iteration over the leaf ends, and the iterator enters its `_finish`. */
    method OnIterationEnds(o: nat, how: IterationEnd)
      requires Valid() && Enabled(Value(), IterationEnded(o, how))
      modifies this
      ensures Valid() && Value() == IterationEnds(old(Value()), o, how)
    {
      hide Inv, SetHealth;
      IterationEndsKeeps(Value(), o, how);
      if how.IterationHealthFailure? {
        UpdateHealth(leases[o].slot, false);
      }
      if ops[o].phase.Ended? {
        ops := ops[o := ops[o].(iteration := Over(
          match how
          case EndOfStream => Exhausted
          case IterationCancelled => RaisedCancelled
          case IterationHealthFailure => RaisedError
          case IterationFailure => RaisedError
          case IterationFatal => RaisedFatal))];
        return;
      }
      ops := ops[o := ops[o].(iteration := Finishing(how))];
      match how {
        case EndOfStream => StartFinish(o, Success, ByIterator);
        case IterationCancelled => StartFinish(o, Cancelled, ByIterator);
        case IterationHealthFailure => StartFinish(o, Error, ByIterator);
        case IterationFailure => StartFinish(o, Error, ByIterator);
        case IterationFatal => StartFinish(o, Cancelled, ByIterator);
      }
    }

    /** The iterator that waited for the close lock gets it, or is cancelled first. */
    method OnIteratorWaitEnds(o: nat, woken: bool)
      requires Valid() && Enabled(Value(), if woken then IteratorWoken(o) else IteratorCancelledWaiting(o))
      modifies this
      ensures Valid() && Value() == IteratorStops(old(Value()), o, woken)
    {
      hide Inv;
      IteratorStopsKeeps(Value(), o, woken);
      var how := ops[o].iteration.how;
      ops := ops[o := ops[o].(iteration := Over(if woken then IterationResultOf(how) else RaisedCancelled))];
    }

    /** `aclose` of a routed stream by the pool or another explicit close. */
    method CloseStream(o: nat)
      requires Valid() && o < |ops|
      modifies this
      ensures Valid() && Value() == Finish(old(Value()), o, Cancelled, Other)
    {
      hide Inv;
      FinishKeeps(Value(), o);
      StartFinish(o, Cancelled, Other);
    }

    /** `_finish` up to the await: the first caller marks the stream closed. */
    method StartFinish(o: nat, outcome: Outcome, closer: Closer)
      requires Shaped(Value()) && o < |ops|
      modifies this`ops
      ensures Value() == Finish(old(Value()), o, outcome, closer)
    {
      if !ops[o].phase.Streaming? {
        return;
      }
      ops := ops[o := ops[o].(phase := Closing(outcome, closer))];
    }

    /** `_finish` after the await: release, unregister, report; and whoever awaited it goes on. */
    method OnStreamCloses(o: nat, how: LeafClose)
      requires Valid() && o < |ops| && ops[o].phase.Closing?
      modifies this
      ensures Valid() && Value() == StreamCloses(old(Value()), o, how)
    {
      hide Inv, Release;
      StreamClosesKeeps(Value(), o, how);
      GoodParts(Value());
      var phase := ops[o].phase;
      var final := phase.outcome;
      if how.CloseCancelled? {
        final := Cancelled;
      } else if how.CloseFailed? {
        final := Error;
      }
      ReleaseLease(o);
      streams := streams - {o};
      var op := ops[o].(phase := Ended, reports := ops[o].reports + [final]);
      ops := ops[o := op];
      match phase.closer {
        case Opener => ops := ops[o := op.(admissionReleases := op.admissionReleases + 1)];
        case ByRelay =>
          if op.relay.RelayClosing? {
            // an interrupted `aclose` ends after the release, before anything is reported
            StopRelay(o, if how.CloseDone? then Some(op.relay.outcome)
                         else if how.CloseFailed? then Some(UpstreamError)
                         else None);
          }
        case ByIterator =>
          if op.iteration.Finishing? {
            // what `_finish` raises replaces what the iterator was about to do
            ops := ops[o := op.(iteration := Over(
              match how
              case CloseDone => IterationResultOf(op.iteration.how)
              case CloseCancelled => RaisedCancelled
              case CloseFailed => RaisedError
              case CloseFatal => RaisedFatal))];
          }
        case Other =>
      }
      assert ops == old(ops)[o := ops[o]];
    }

    // -------------------------------------------------------------- relays

    /** `StreamingRelay.aclose` up to the await. */
    method CloseRelay(o: nat, outcome: RelayOutcome)
      requires Valid() && Enabled(Value(), RelayClosed(o, outcome))
      modifies this
      ensures Valid() && Value() == RelayCloses(old(Value()), o, outcome)
    {
      hide Inv;
      RelayClosesKeeps(Value(), o, outcome);
      if !ops[o].relay.Relaying? {
        return;
      }
      if ops[o].phase.Ended? {
        StopRelay(o, Some(outcome));
        return;
      }
      ops := ops[o := ops[o].(relay := RelayClosing(outcome))];
      StartFinish(o, Cancelled, ByRelay);
    }

    /** `aclose` after the await: the admission lease is released in any case. */
    method StopRelay(o: nat, report: Option<RelayOutcome>)
      requires Shaped(Value()) && o < |ops|
      modifies this`ops
      ensures Value() == WithOp(old(Value()), o, EndRelay(old(ops[o]), report))
    {
      var op := ops[o];
      op := op.(admissionReleases := op.admissionReleases + 1);
      ops := ops[o := op.(relay := RelayEnded(report))];
    }

    /** The relay that waited for the close lock gets it, or is cancelled first. */
    method OnRelayWaitEnds(o: nat, woken: bool)
      requires Valid() && Enabled(Value(), if woken then RelayWoken(o) else RelayCancelledWaiting(o))
      modifies this
      ensures Valid() && Value() == Step(old(Value()), if woken then RelayWoken(o) else RelayCancelledWaiting(o))
    {
      hide Inv;
      StepKeeps(Value(), if woken then RelayWoken(o) else RelayCancelledWaiting(o));
      StopRelay(o, if woken then Some(ops[o].relay.outcome) else None);
    }

    // -------------------------------------------------------------- closing

    /** The first critical section of `close`. */
    method BeginClose()
      requires Valid()
      modifies this
      ensures Valid() && Value() == PoolCloses(old(Value()))
    {
      hide Inv;
      PoolClosesKeeps(Value());
      if closed {
        return;
      }
      closed := true;
      shutdown := Draining(active, streams);
    }

    /** The captured streams have ended, and the releases of the captured leases begin. */
    method DrainStreams()
      requires Valid() && Enabled(Value(), StreamsDrained)
      modifies this
      ensures Valid() && Value() == Step(old(Value()), StreamsDrained)
    {
      hide Inv;
      StepKeeps(Value(), StreamsDrained);
      shutdown := Releasing(shutdown.leases);
    }

    /** One of these releases, between any other steps: the operation that holds the lease may
        still be running, or may have released it already. */
    method ReleaseOneCaptured(l: nat)
      requires Valid() && Enabled(Value(), CloseReleases(l))
      modifies this
      ensures Valid() && Value() == Step(old(Value()), CloseReleases(l)) && leases[l].released
    {
      hide Accounted, Owned;
      StepKeeps(Value(), CloseReleases(l));
      ReleaseKeeps(Value(), l);
      ReleaseLease(l);
    }

    /** The captured streams have ended: the captured leases are released, each by its own
        task, here in one of the orders in which that can happen. */
    method ReleaseCaptured(order: seq<nat>)
      requires Valid() && Enabled(Value(), StreamsDrained)
      requires forall k :: 0 <= k < |order| ==> order[k] < |leases|
      requires forall l :: l in shutdown.leases ==> l in order
      modifies this
      ensures Valid() && shutdown == Releasing(old(shutdown.leases)) && active == {}
      ensures ops == old(ops) && streams == old(streams) && closed && cursor == old(cursor)
      ensures leases == seq(|old(leases)|, (l: nat) requires l < |old(leases)| =>
                              old(leases)[l].(released := old(leases)[l].released || l in order))
    {
      hide Accounted, Captured, Owned;
      StepKeeps(Value(), StreamsDrained);
      ghost var captured := shutdown.leases;
      OnlyCaptured(Value());
      shutdown := Releasing(shutdown.leases);
      for k := 0 to |order|
        invariant Valid() && closed && shutdown == Releasing(captured) && |leases| == |old(leases)|
        invariant ops == old(ops) && streams == old(streams) && cursor == old(cursor)
        invariant forall l :: 0 <= l < |leases| ==>
          leases[l] == old(leases)[l].(released := old(leases)[l].released || l in order[..k])
        invariant active == old(active) - (set l | l in order[..k])
      {
        CloseReleaseKeeps(Value(), order[k]);
        ReleasedLease(Value(), order[k]);
        ReleaseLease(order[k]);
        assert order[..k + 1] == order[..k] + [order[k]];
      }
      assert order[..|order|] == order;
    }

    /** The last critical section of `close`: every backend is marked unhealthy. */
    method EndClose()
      requires Valid() && Enabled(Value(), CloseEnds)
      modifies this
      ensures Valid() && Value() == Step(old(Value()), CloseEnds)
    {
      hide Inv;
      CloseEndsKeeps(Value());
      for k := 0 to |slots|
        invariant Value() == old(Value()).(slots := slots) && |slots| == |old(slots)|
        invariant forall i :: 0 <= i < |slots| ==>
          slots[i] == if i < k then old(slots)[i].(health := Unhealthy) else old(slots)[i]
      {
        slots := slots[k := slots[k].(health := Unhealthy)];
      }
      shutdown := Finished;
      assert slots == AllUnhealthy(old(slots));
    }
  }

  lemma NotFatalYet(s: State, o: nat)
    requires Inv(s) && o < |s.ops| && s.ops[o].phase.Calling?
    ensures !s.ops[o].fatal
  {
    hide Accounted, Captured;
  }

  lemma GoodParts(s: State)
    requires Inv(s)
    ensures Accounted(s)
  {
  }

  lemma OnlyCaptured(s: State)
    requires Inv(s) && s.shutdown.Draining?
    ensures s.closed && s.active <= s.shutdown.leases
  {
  }
}
