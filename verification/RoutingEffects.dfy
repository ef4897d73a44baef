/** What the steps of an operation do to it, told without the functions the steps are made of:
    how its call ends, how its stream ends, and what its relay reports. */
module RoutingEffects {
  import opened Collections
  import opened RoutingModel
  import opened RoutingSelection
  import opened RoutingInvariant
  import opened RoutingTheorems

  // ---------------------------------------------------------------- beginning

  /** Walking up from `cursor` and around, `i` is met no later than `j`. */
  predicate Ahead(cursor: nat, i: nat, j: nat) {
    if cursor <= i then j < cursor || i <= j else i <= j < cursor
  }

  lemma ChosenLeast(slots: seq<Slot>, cursor: nat)
    requires cursor < |slots|
    ensures Chosen(slots, cursor).Some? <==> exists i :: 0 <= i < |slots| && slots[i].health == Healthy
    ensures Chosen(slots, cursor).Some? ==>
      var i := Chosen(slots, cursor).value;
      && i < |slots| && slots[i].health == Healthy
      && forall j :: 0 <= j < |slots| && slots[j].health == Healthy ==>
        || slots[i].inflight < slots[j].inflight
        || (slots[i].inflight == slots[j].inflight && Ahead(cursor, i, j))
  {
    hide Search, Chosen, At;
    ChosenExactly(slots, cursor);
    if Chosen(slots, cursor).Some? {
      var i, n := Chosen(slots, cursor).value, |slots|;
      var at :| 0 <= at < n && FirstAt(slots, cursor, 0, at) && i == At(n, cursor, at);
      forall j | 0 <= j < n && slots[j].health == Healthy && slots[j].inflight == slots[i].inflight
        ensures Ahead(cursor, i, j)
      {
        var to := OffsetOf(n, cursor, j);
        assert LeastLoaded(slots, At(n, cursor, to));
        AheadOf(n, cursor, at, to);
      }
    }
  }

  lemma AheadOf(n: nat, cursor: nat, a: nat, b: nat)
    requires cursor < n && a <= b < n
    ensures Ahead(cursor, At(n, cursor, a), At(n, cursor, b))
  {
    Wrap(n, cursor + a);
    Wrap(n, cursor + b);
  }

  lemma NextCursor(i: nat, n: nat)
    requires i < n
    ensures (i + 1) % n == if i + 1 == n then 0 else i + 1
  {
  }

  /** A new operation takes a load of one, or the size of its batch, on a healthy backend that
      carries less than every other healthy one, or as little as some and is met before those
      from the cursor on; the next search starts behind it. */
  lemma BeginTakes(s: State, kind: Kind)
    requires Inv(s)
    ensures var r := Step(s, Begins(kind)); var w := match kind { case Batch(k) => k case _ => 1 };
      if s.closed || w == 0 || !(exists i :: 0 <= i < |s.slots| && s.slots[i].health == Healthy) then r == s else
        && |r.leases| == |s.leases| + 1
        && var i := r.leases[|s.leases|].slot;
        && i < |s.slots| && s.slots[i].health == Healthy
        && (forall j :: 0 <= j < |s.slots| && s.slots[j].health == Healthy ==>
              || s.slots[i].inflight < s.slots[j].inflight
              || (s.slots[i].inflight == s.slots[j].inflight && Ahead(s.cursor, i, j)))
        && r == s.(slots := s.slots[i := Slot(Healthy, s.slots[i].inflight + w)],
                   cursor := if i + 1 == |s.slots| then 0 else i + 1,
                   leases := s.leases + [Lease(i, w, false)], active := s.active + {|s.leases|},
                   ops := s.ops + [Op(kind, Calling, [], false, Iterating, NoRelay, 0)])
  {
    hide Inv, Search, Chosen, At;
    ChosenLeast(s.slots, s.cursor);
    if Chosen(s.slots, s.cursor).Some? {
      NextCursor(Chosen(s.slots, s.cursor).value, |s.slots|);
    }
  }

  // ---------------------------------------------------------------- ending

  /** The lease of `o` is released and its weight taken off its backend, if that was not done. */
  ghost predicate GaveBack(s: State, r: State, o: nat)
    requires o < |s.leases|
  {
    && r.leases == s.leases[o := s.leases[o].(released := true)] && r.active == s.active - {o}
    && |r.slots| == |s.slots|
    && forall i :: 0 <= i < |s.slots| ==>
      var taken := if i == s.leases[o].slot && !s.leases[o].released then s.leases[o].weight else 0;
      r.slots[i].inflight == s.slots[i].inflight - taken
  }

  lemma ReleaseGivesBack(s: State, o: nat)
    requires Shaped(s) && Accounted(s) && o < |s.leases|
    ensures GaveBack(s, Release(s, o), o)
  {
    ReleasedLease(s, o);
    if !s.leases[o].released {
      LoadCovers(s, o);
    } else {
      assert s.leases[o := s.leases[o]] == s.leases;
    }
  }

  lemma MarkKeeps(s: State, i: nat)
    requires Inv(s) && i < |s.slots|
    ensures var r := SetHealth(s, i, false);
      && r == s.(slots := r.slots) && |r.slots| == |s.slots|
      && forall k :: 0 <= k < |s.slots| ==> r.slots[k].inflight == s.slots[k].inflight
  {
  }

  /** The end of the call of a stream that opened: it is handed to a relay and registered, or
      closed again at once when the pool has closed meanwhile. */
  lemma StreamOpens(s: State, o: nat)
    requires Inv(s) && o < |s.ops| && s.ops[o].phase == Calling && s.ops[o].kind == Stream
    ensures Step(s, CallEnded(o, Returned)) ==
      if s.closed then s.(ops := s.ops[o := s.ops[o].(phase := Closing(Error, Opener))])
      else s.(ops := s.ops[o := s.ops[o].(phase := Streaming, relay := Relaying)], streams := s.streams + {o})
  {
    hide Accounted, Owned, Captured;
  }

  /** Any other end of a call: the lease is given back and the outcome of the call reported,
      except for a fatal exception in a call that is not a stream's. */
  lemma CallSettles(s: State, o: nat, how: CallEnd)
    requires Inv(s) && o < |s.ops| && s.ops[o].phase == Calling
    requires !(s.ops[o].kind == Stream && how == Returned)
    ensures var r := Step(s, CallEnded(o, how));
      && GaveBack(s, r, o) && r.streams == s.streams
      && |r.ops| == |s.ops| && (forall x :: 0 <= x < |s.ops| && x != o ==> r.ops[x] == s.ops[x])
      && r.ops[o].phase == Ended && r.ops[o].relay == NoRelay
      && (how == Returned ==> r.ops[o].reports == [Success])
      && (how == CallCancelled ==> r.ops[o].reports == [Cancelled])
      && (how == HealthFailure || how == Failure ==> r.ops[o].reports == [Error])
      && (how == Fatal ==> r.ops[o].reports == if s.ops[o].kind == Stream then [Error] else [])
      && r.ops[o].admissionReleases == if s.ops[o].kind == Stream then 1 else 0
  {
    hide Accounted, Captured, StreamFits, Release, SetHealth;
    var marked := if how == HealthFailure then SetHealth(s, s.leases[o].slot, false) else s;
    SetHealthKeeps(s, s.leases[o].slot, false);
    MarkKeeps(s, s.leases[o].slot);
    ReleaseGivesBack(marked, o);
    CallingFits(s, o);
    assert forall r: Outcome :: [] + [r] == [r];
  }

  lemma CallingFits(s: State, o: nat)
    requires Inv(s) && o < |s.ops| && s.ops[o].phase == Calling
    ensures s.ops[o].reports == [] && s.ops[o].relay == NoRelay && s.ops[o].admissionReleases == 0 && !s.ops[o].fatal
    ensures o !in s.streams
  {
    hide Accounted, Captured;
  }

  /** What the end of an iteration counts as, if closing the leaf does not change it. */
  predicate CountsAs(how: IterationEnd, outcome: Outcome) {
    || (how == EndOfStream && outcome == Success)
    || ((how == IterationCancelled || how == IterationFatal) && outcome == Cancelled)
    || ((how == IterationHealthFailure || how == IterationFailure) && outcome == Error)
  }

  /** What the consumer of the iterator sees of such an end. */
  predicate SeenAs(how: IterationEnd, result: IterationResult) {
    || (how == EndOfStream && result == Exhausted)
    || (how == IterationCancelled && result == RaisedCancelled)
    || (how == IterationFatal && result == RaisedFatal)
    || ((how == IterationHealthFailure || how == IterationFailure) && result == RaisedError)
  }

  /** The iteration over an open stream ends: its closing begins, and will count as that end. */
  lemma IterationStartsClosing(s: State, o: nat, how: IterationEnd)
    requires Inv(s) && o < |s.ops| && s.ops[o].phase == Streaming
    ensures var r := Step(s, IterationEnded(o, how));
      && |r.ops| == |s.ops| && (forall x :: 0 <= x < |s.ops| && x != o ==> r.ops[x] == s.ops[x])
      && r.ops[o].phase.Closing? && r.ops[o].phase.closer == ByIterator && CountsAs(how, r.ops[o].phase.outcome)
      && r.ops[o] == s.ops[o].(phase := r.ops[o].phase, iteration := Finishing(how))
      && r.leases == s.leases && r.streams == s.streams
  {
    hide Accounted, Captured;
  }

  /** The iteration over a stream that is being closed by another call waits for it; over a
      stream that is closed it ends at once. */
  lemma IterationJoinsClosing(s: State, o: nat, how: IterationEnd)
    requires Inv(s) && o < |s.ops| && s.ops[o].relay != NoRelay && s.ops[o].iteration == Iterating
    requires s.ops[o].phase != Streaming
    ensures var r := Step(s, IterationEnded(o, how));
      && |r.ops| == |s.ops| && (forall x :: 0 <= x < |s.ops| && x != o ==> r.ops[x] == s.ops[x])
      && r.ops[o] == s.ops[o].(iteration := r.ops[o].iteration)
      && (s.ops[o].phase != Ended ==> r.ops[o].iteration == Finishing(how))
      && (s.ops[o].phase == Ended ==> r.ops[o].iteration.Over? && SeenAs(how, r.ops[o].iteration.result))
  {
    hide Accounted, Captured;
  }

  /** An iterator that waited goes on as its iteration ended, unless it is cancelled while it waits. */
  lemma IteratorGoesOn(s: State, o: nat, woken: bool)
    requires Inv(s) && o < |s.ops| && s.ops[o].iteration.Finishing? && s.ops[o].phase == Ended
    ensures var r := Step(s, if woken then IteratorWoken(o) else IteratorCancelledWaiting(o));
      && |r.ops| == |s.ops| && r.ops[o].iteration.Over?
      && r == s.(ops := s.ops[o := s.ops[o].(iteration := r.ops[o].iteration)])
      && (woken ==> SeenAs(s.ops[o].iteration.how, r.ops[o].iteration.result))
      && (!woken ==> r.ops[o].iteration.result == RaisedCancelled)
  {
    hide Accounted, Captured;
  }

  /** What is reported of a stream closed as `planned` when closing the leaf ended as `leaf`. */
  predicate ReportedAs(planned: Outcome, leaf: LeafClose, report: Outcome) {
    || (leaf == CloseCancelled && report == Cancelled)
    || (leaf == CloseFailed && report == Error)
    || ((leaf == CloseDone || leaf == CloseFatal) && report == planned)
  }

  /** Closing the leaf ends: the lease is given back, the stream is no longer registered, and
      one outcome is reported. */
  lemma StreamSettles(s: State, o: nat, leaf: LeafClose)
    requires Inv(s) && o < |s.ops| && s.ops[o].phase.Closing?
    ensures var r := Step(s, StreamClosed(o, leaf));
      && GaveBack(s, r, o) && r.streams == s.streams - {o}
      && |r.ops| == |s.ops| && (forall x :: 0 <= x < |s.ops| && x != o ==> r.ops[x] == s.ops[x])
      && r.ops[o].phase == Ended && |r.ops[o].reports| == 1
      && ReportedAs(s.ops[o].phase.outcome, leaf, r.ops[o].reports[0])
  {
    hide Accounted, Captured, StreamFits, Release, RelayReport, ResultAfterClose;
    ReleaseGivesBack(s, o);
    ClosingFits(s, o);
  }

  lemma ClosingFits(s: State, o: nat)
    requires Inv(s) && o < |s.ops| && s.ops[o].phase.Closing?
    ensures s.ops[o].reports == []
  {
    hide Accounted, Captured;
  }

  /** From an open stream, by its own iterator: the report is the end of the iteration, unless
      closing the leaf is cancelled or fails; and the relay, still open, sees the same. */
  lemma StreamReadOut(s: State, o: nat, how: IterationEnd, leaf: LeafClose)
    requires Inv(s) && o < |s.ops| && s.ops[o].phase == Streaming
    ensures var r := Step(Step(s, IterationEnded(o, how)), StreamClosed(o, leaf));
      && |r.ops| == |s.ops| && r.ops[o].phase == Ended && r.ops[o].relay == Relaying
      && |r.ops[o].reports| == 1
      && (leaf == CloseCancelled ==> r.ops[o].reports[0] == Cancelled)
      && (leaf == CloseFailed ==> r.ops[o].reports[0] == Error)
      && (leaf == CloseDone || leaf == CloseFatal ==>
            r.ops[o].reports[0] ==
            if how == EndOfStream then Success
            else if how == IterationHealthFailure || how == IterationFailure then Error
            else Cancelled)
      && r.ops[o].iteration.Over?
      && (leaf == CloseDone ==> (r.ops[o].iteration.result == Exhausted <==> how == EndOfStream))
      && (leaf == CloseDone ==> (r.ops[o].iteration.result == RaisedCancelled <==> how == IterationCancelled))
      && (leaf == CloseDone ==> (r.ops[o].iteration.result == RaisedFatal <==> how == IterationFatal))
      && (leaf == CloseCancelled ==> r.ops[o].iteration.result == RaisedCancelled)
      && (leaf == CloseFailed ==> r.ops[o].iteration.result == RaisedError)
      && (leaf == CloseFatal ==> r.ops[o].iteration.result == RaisedFatal)
  {
    hide Inv, Step;
    StepKeeps(s, IterationEnded(o, how));
    IterationStartsClosing(s, o, how);
    StreamSettles(Step(s, IterationEnded(o, how)), o, leaf);
    OpenStream(s, o);
    IteratorSees(Step(s, IterationEnded(o, how)), o, how, leaf);
  }

  lemma OpenStream(s: State, o: nat)
    requires Inv(s) && o < |s.ops| && s.ops[o].phase == Streaming
    ensures s.ops[o].kind == Stream && s.ops[o].relay == Relaying && s.ops[o].iteration == Iterating
  {
    hide Accounted, Captured;
  }

  lemma IteratorSees(s: State, o: nat, how: IterationEnd, leaf: LeafClose)
    requires Inv(s) && o < |s.ops| && s.ops[o].phase.Closing? && s.ops[o].phase.closer == ByIterator
    requires s.ops[o].iteration == Finishing(how)
    ensures var r := Step(s, StreamClosed(o, leaf)).ops;
      && |r| == |s.ops| && r[o].relay == s.ops[o].relay && r[o].iteration.Over?
      && (leaf == CloseDone ==> SeenAs(how, r[o].iteration.result))
      && (leaf == CloseCancelled ==> r[o].iteration.result == RaisedCancelled)
      && (leaf == CloseFailed ==> r[o].iteration.result == RaisedError)
      && (leaf == CloseFatal ==> r[o].iteration.result == RaisedFatal)
  {
    hide Accounted, Owned, Captured, Release;
  }

  // ---------------------------------------------------------------- relays

  /** From an open stream, by its relay: the stream is closed as cancelled, the admission lease
      is released, and the relay reports its own outcome, a failure of the closing instead, or
      nothing when the closing is interrupted. */
  lemma RelayGivesUp(s: State, o: nat, leaf: LeafClose)
    requires Inv(s) && o < |s.ops| && s.ops[o].phase == Streaming
    ensures var r := Step(Step(s, RelayClosed(o, RelayCancelled)), StreamClosed(o, leaf));
      && |r.ops| == |s.ops| && r.ops[o].phase == Ended
      && r.ops[o].reports == [if leaf == CloseFailed then Error else Cancelled]
      && r.ops[o].admissionReleases == 1
      && (leaf == CloseDone ==> r.ops[o].relay == RelayEnded(Some(RelayCancelled)))
      && (leaf == CloseFailed ==> r.ops[o].relay == RelayEnded(Some(UpstreamError)))
      && (leaf == CloseCancelled || leaf == CloseFatal ==> r.ops[o].relay == RelayEnded(None))
  {
    hide Inv, Step, Release;
    var m := Step(s, RelayClosed(o, RelayCancelled));
    StepKeeps(s, RelayClosed(o, RelayCancelled));
    OpenStream(s, o);
    RelayStarts(s, o);
    StreamSettles(m, o, leaf);
    RelayReports(m, o, leaf);
  }

  lemma RelayStarts(s: State, o: nat)
    requires Inv(s) && o < |s.ops| && s.ops[o].phase == Streaming && s.ops[o].relay == Relaying
    ensures Step(s, RelayClosed(o, RelayCancelled)) ==
      s.(ops := s.ops[o := s.ops[o].(phase := Closing(Cancelled, ByRelay), relay := RelayClosing(RelayCancelled))])
    ensures s.ops[o].admissionReleases == 0
  {
    hide Accounted, Captured;
  }

  lemma RelayReports(s: State, o: nat, leaf: LeafClose)
    requires Inv(s) && o < |s.ops| && s.ops[o].relay.RelayClosing? && s.ops[o].phase == Closing(Cancelled, ByRelay)
    ensures var r := Step(s, StreamClosed(o, leaf)).ops;
      && |r| == |s.ops| && r[o].relay.RelayEnded? && r[o].admissionReleases == s.ops[o].admissionReleases + 1
      && (leaf == CloseDone ==> r[o].relay.report == Some(s.ops[o].relay.outcome))
      && (leaf == CloseFailed ==> r[o].relay.report == Some(UpstreamError))
      && (leaf == CloseCancelled || leaf == CloseFatal ==> r[o].relay.report == None)
  {
    hide Accounted, Owned, Captured, Release;
  }

  /** A relay whose loop has ended, and with it the stream, reports how the loop ended. */
  lemma RelayFinishes(s: State, o: nat, outcome: RelayOutcome)
    requires Inv(s) && o < |s.ops| && s.ops[o].phase == Ended && s.ops[o].relay == Relaying
    requires outcome == Completed ==> s.ops[o].iteration == Over(Exhausted)
    requires outcome == UpstreamError ==> s.ops[o].iteration == Over(RaisedError)
    ensures Step(s, RelayClosed(o, outcome)) ==
      s.(ops := s.ops[o := s.ops[o].(relay := RelayEnded(Some(outcome)), admissionReleases := 1)])
  {
    hide Accounted, Captured;
  }

  /** A relay that waited for another call to close the stream reports its own outcome when it
      gets on, and nothing when it is cancelled while it waits; the admission lease is released. */
  lemma RelayGoesOn(s: State, o: nat, woken: bool)
    requires Inv(s) && o < |s.ops| && s.ops[o].phase == Ended && s.ops[o].relay.RelayClosing?
    ensures Step(s, if woken then RelayWoken(o) else RelayCancelledWaiting(o)) ==
      s.(ops := s.ops[o := s.ops[o].(
        relay := RelayEnded(if woken then Some(s.ops[o].relay.outcome) else None), admissionReleases := 1)])
  {
    hide Accounted, Captured;
  }

  /** Another close of an open stream, by the pool or by anyone else, counts as a cancellation. */
  lemma AbandonedIsCancelled(s: State, o: nat)
    requires Inv(s) && o < |s.ops| && s.ops[o].phase == Streaming
    ensures Step(s, StreamAbandoned(o)) == s.(ops := s.ops[o := s.ops[o].(phase := Closing(Cancelled, Other))])
  {
    hide Accounted, Captured;
  }

  // ---------------------------------------------------------------- closing the pool

  /** Closing captures what is active at that moment, once. */
  lemma CloseCaptures(s: State)
    requires Inv(s)
    ensures Step(s, CloseBegins) ==
      if s.closed then s else s.(closed := true, shutdown := Draining(s.active, s.streams))
    ensures forall l: nat :: l in s.active <==> l < |s.leases| && !s.leases[l].released
    ensures forall o: nat :: o in s.streams <==> o < |s.ops| && s.ops[o].relay != NoRelay && s.ops[o].phase != Ended
  {
    hide Captured, StreamFits;
  }

  /** `close` goes on to the leases only when every captured stream has ended, and ends only when
      every captured lease is released. */
  lemma CloseWaits(s: State)
    requires Inv(s)
    ensures s.shutdown.Draining? && (exists o :: o in s.shutdown.streams && o < |s.ops| && s.ops[o].phase != Ended) ==>
      Step(s, StreamsDrained) == s
    ensures s.shutdown.Releasing? && (exists l :: l in s.shutdown.leases && l < |s.leases| && !s.leases[l].released) ==>
      Step(s, CloseEnds) == s
    ensures !s.shutdown.Releasing? ==> Step(s, CloseEnds) == s && forall l :: Step(s, CloseReleases(l)) == s
  {
    hide Accounted, Owned, Captured, Release;
  }

  /** A relay has reported an outcome only if its stream has ended: nothing of it is still in use. */
  lemma ReportedRelayIsOver(n: nat, s: State, o: nat)
    requires Reachable(n, s) && Shaped(s) && o < |s.ops| && s.ops[o].relay.RelayEnded? && s.ops[o].relay.report.Some?
    ensures s.ops[o].phase == Ended && s.leases[o].released && |s.ops[o].reports| == 1 && s.ops[o].admissionReleases == 1
  {
    hide Run, Accounted, Captured;
    EveryReachableStateIsGood(n, s);
  }

  /** `close` releases a captured lease as the end of its operation would. */
  lemma CloseGivesBack(s: State, l: nat)
    requires Inv(s) && s.shutdown.Releasing? && l in s.shutdown.leases && l < |s.leases|
    ensures GaveBack(s, Step(s, CloseReleases(l)), l) && Step(s, CloseReleases(l)).ops == s.ops
  {
    hide Accounted, Owned, Captured, Release;
    ReleaseGivesBack(s, l);
  }
}
