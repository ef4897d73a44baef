/** The promises of the pool and of the relays over every run from construction. */
module RoutingTheorems {
  import opened Collections
  import opened RoutingModel
  import opened RoutingSelection
  import opened RoutingInvariant

  /** Any interleaving of operations, their ends, health results, relays and closing. */
  ghost predicate Reachable(n: nat, s: State) {
    n > 0 && exists es: seq<Event> :: s == Run(Initial(n), es)
  }

  lemma EveryReachableStateIsGood(n: nat, s: State)
    requires Reachable(n, s)
    ensures Inv(s)
  {
    hide Inv, Run;
    var es :| s == Run(Initial(n), es);
    InitialInv(n);
    RunKeeps(Initial(n), es);
  }

  /** Conservation: a backend's load is the weight of its unreleased leases, hence never
      negative, and the accounting error is never raised. */
  lemma LoadIsUnreleasedWeight(n: nat, s: State, i: nat)
    requires Reachable(n, s) && Shaped(s) && i < |s.slots|
    ensures s.slots[i].inflight == Total(s.leases, Load(i)) >= 0 && !s.fault
  {
    hide Run, Owned, Captured;
    EveryReachableStateIsGood(n, s);
    TotalNonNegative(s.leases, Load(i));
  }

  /** A new operation makes exactly the selection step of the rotating search. */
  lemma BeginSelects(s: State, kind: Kind)
    requires Shaped(s) && !s.closed && kind.Weight() > 0
    ensures Ring(Begin(s, kind).slots, Begin(s, kind).cursor) == Selected(Ring(s.slots, s.cursor), kind.Weight())
    ensures |Begin(s, kind).ops| == |s.ops| + if AnyHealthy(s.slots) then 1 else 0
  {
    ChosenExactly(s.slots, s.cursor);
  }

  // ---------------------------------------------------------------- what is never revised

  function Rank(p: Phase): nat {
    match p
    case Calling => 0
    case Streaming => 1
    case Closing(_, _) => 2
    case Ended => 3
  }

  function RelayRank(r: Relay): nat {
    match r
    case NoRelay => 0
    case Relaying => 1
    case RelayClosing(_) => 2
    case RelayEnded(_) => 3
  }

  function IterationRank(i: Iteration): nat {
    match i
    case Iterating => 0
    case Finishing(_) => 1
    case Over(_) => 2
  }

  /** Phases only advance; a lease keeps its backend and weight and is never taken back;
      an ended operation keeps its report, and an ended relay its own. */
  ghost predicate Later(a: Op, b: Op) {
    && b.kind == a.kind && Rank(a.phase) <= Rank(b.phase) && RelayRank(a.relay) <= RelayRank(b.relay)
    && (a.phase.Closing? && b.phase.Closing? ==> b.phase == a.phase)
    && IterationRank(a.iteration) <= IterationRank(b.iteration)
    && (a.iteration.Over? ==> b.iteration == a.iteration)
    && (a.phase.Ended? ==> b.reports == a.reports && b.fatal == a.fatal)
    && (a.relay.RelayEnded? ==> b.relay == a.relay)
    && a.admissionReleases <= b.admissionReleases
  }

  ghost predicate Extends(s: State, r: State) {
    && |s.leases| <= |r.leases| && |s.ops| <= |r.ops|
    && (forall l :: 0 <= l < |s.leases| ==>
          && r.leases[l].slot == s.leases[l].slot && r.leases[l].weight == s.leases[l].weight
          && (s.leases[l].released ==> r.leases[l].released))
    && (forall o :: 0 <= o < |s.ops| ==> Later(s.ops[o], r.ops[o]))
  }

  lemma LeasesExtend(s: State, e: Event)
    requires Shaped(s)
    ensures |s.leases| <= |Step(s, e).leases|
    ensures forall l :: 0 <= l < |s.leases| ==>
      var a, b := s.leases[l], Step(s, e).leases[l];
      b.slot == a.slot && b.weight == a.weight && (a.released ==> b.released)
  {
    hide Chosen, CallReport, RelayReport, FinalOutcome, SetHealth, Release, Finish, EndRelay, AllUnhealthy,
      IterationEnds, IteratorStops, RelayCloses;
  }

  /** The operation whose task takes the step. */
  function Named(e: Event): Option<nat> {
    match e
    case CallEnded(o, _) => Some(o)
    case IterationEnded(o, _) => Some(o)
    case IteratorWoken(o) => Some(o)
    case IteratorCancelledWaiting(o) => Some(o)
    case StreamAbandoned(o) => Some(o)
    case StreamClosed(o, _) => Some(o)
    case RelayClosed(o, _) => Some(o)
    case RelayWoken(o) => Some(o)
    case RelayCancelledWaiting(o) => Some(o)
    case _ => None
  }

  lemma Untouched(s: State, e: Event, o: nat)
    requires Shaped(s) && o < |s.ops| && Named(e) != Some(o)
    ensures o < |Step(s, e).ops| && Step(s, e).ops[o] == s.ops[o]
  {
    hide Chosen, CallEnds, IterationEnds, IteratorStops, StreamCloses, RelayCloses, Finish, EndRelay, AllUnhealthy,
      SetHealth, Release;
  }

  lemma CallAdvances(s: State, e: Event, o: nat)
    requires Shaped(s) && o < |s.ops| && Named(e) == Some(o) && (e.CallEnded? || e.StreamClosed?)
    requires Fits(s.ops[o], s.leases[o], o in s.streams, s.closed)
    ensures o < |Step(s, e).ops| && Later(s.ops[o], Step(s, e).ops[o])
  {
    hide Begin, PoolCloses, AllUnhealthy, CallReport, RelayReport, FinalOutcome, ResultAfterClose, SetHealth, Release;
  }

  lemma IterationEndAdvances(s: State, e: Event, o: nat)
    requires Shaped(s) && o < |s.ops| && e.IterationEnded? && e.o == o
    requires Fits(s.ops[o], s.leases[o], o in s.streams, s.closed)
    ensures o < |Step(s, e).ops| && Later(s.ops[o], Step(s, e).ops[o])
  {
    hide StreamFits, IterationOutcome, IterationResultOf, SetHealth;
  }

  lemma IteratorAdvances(s: State, e: Event, o: nat)
    requires Shaped(s) && o < |s.ops| && Named(e) == Some(o)
    requires e.IteratorWoken? || e.IteratorCancelledWaiting? || e.StreamAbandoned?
    ensures o < |Step(s, e).ops| && Later(s.ops[o], Step(s, e).ops[o])
  {
    hide Begin, CallEnds, IterationEnds, StreamCloses, RelayCloses, PoolCloses, AllUnhealthy, IterationResultOf;
  }

  lemma RelayAdvances(s: State, e: Event, o: nat)
    requires Shaped(s) && o < |s.ops| && Named(e) == Some(o) && (e.RelayClosed? || e.RelayWoken? || e.RelayCancelledWaiting?)
    ensures o < |Step(s, e).ops| && Later(s.ops[o], Step(s, e).ops[o])
  {
    hide CallReport, RelayReport, FinalOutcome;
  }

  /** Only the operation an event names can change, and there it advances. */
  lemma OpsExtend(s: State, e: Event, o: nat)
    requires Inv(s) && o < |s.ops|
    ensures o < |Step(s, e).ops| && Later(s.ops[o], Step(s, e).ops[o])
  {
    hide Accounted, Captured, Step, Enabled, Fits;
    if Named(e) != Some(o) {
      Untouched(s, e, o);
    } else if e.RelayClosed? || e.RelayWoken? || e.RelayCancelledWaiting? {
      RelayAdvances(s, e, o);
    } else if e.CallEnded? || e.StreamClosed? {
      CallAdvances(s, e, o);
    } else if e.IterationEnded? {
      IterationEndAdvances(s, e, o);
    } else {
      IteratorAdvances(s, e, o);
    }
  }

  lemma StepExtends(s: State, e: Event)
    requires Inv(s)
    ensures Extends(s, Step(s, e))
  {
    hide Inv, Step, Later;
    LeasesExtend(s, e);
    forall o: nat | o < |s.ops| ensures o < |Step(s, e).ops| && Later(s.ops[o], Step(s, e).ops[o]) {
      OpsExtend(s, e, o);
    }
    OpsGrow(s, e);
  }

  lemma OpsGrow(s: State, e: Event)
    requires Shaped(s)
    ensures |s.ops| <= |Step(s, e).ops|
  {
    hide Chosen, CallReport, RelayReport, FinalOutcome, SetHealth;
  }

  lemma {:induction false} RunExtends(s: State, es: seq<Event>)
    requires Inv(s)
    ensures Extends(s, Run(s, es))
    decreases |es|
  {
    hide Inv, Step;
    if es != [] {
      StepExtends(s, es[0]);
      StepKeeps(s, es[0]);
      RunExtends(Step(s, es[0]), es[1..]);
    }
  }

  // ---------------------------------------------------------------- one operation

  /** The routing lease is held exactly while the operation runs, unless closing the pool
      took it earlier; and the operation reports one outcome when it ends, none before. */
  lemma OwnedUntilEnd(n: nat, s: State, o: nat)
    requires Reachable(n, s) && Shaped(s) && o < |s.ops|
    ensures s.ops[o].phase.Ended? ==> s.leases[o].released
    ensures !s.ops[o].phase.Ended? && !s.closed ==> !s.leases[o].released
    ensures |s.ops[o].reports| == if s.ops[o].phase.Ended? && !s.ops[o].fatal then 1 else 0
    ensures s.ops[o].kind.Stream? ==> !s.ops[o].fatal
  {
    hide Run, Accounted, Captured;
    EveryReachableStateIsGood(n, s);
  }

  /** An operation ends without a report exactly when a fatal exception ends the backend call
      of `generate` or `generate_batch`. */
  lemma SilentExactlyWhenFatal(s: State, e: Event, o: nat)
    requires Inv(s) && o < |s.ops| && !s.ops[o].phase.Ended?
    requires o < |Step(s, e).ops| && Step(s, e).ops[o].phase.Ended?
    ensures Step(s, e).ops[o].reports == [] <==> e == CallEnded(o, Fatal) && !s.ops[o].kind.Stream?
  {
    hide Accounted, Captured, Begin, PoolCloses, AllUnhealthy, SetHealth, Release, RelayReport, FinalOutcome;
    if Named(e) != Some(o) {
      Untouched(s, e, o);
    }
  }

  /** The admission lease of a stream is released once its relay has ended, or once the
      stream failed to open, and not before; it is released once. */
  lemma AdmissionReleasedOnce(n: nat, s: State, o: nat)
    requires Reachable(n, s) && Shaped(s) && o < |s.ops| && s.ops[o].kind.Stream?
    ensures s.ops[o].admissionReleases ==
      if s.ops[o].relay.RelayEnded? || (s.ops[o].relay.NoRelay? && s.ops[o].phase.Ended?) then 1 else 0
  {
    hide Run, Accounted, Captured;
    EveryReachableStateIsGood(n, s);
  }

  /** The step that ends a relay reports its outcome unless it interrupts the close: the
      lease is released all the same, but metrics are not finalized and no outcome is
      reported exactly when the close of the relay is cancelled or hit by a fatal exception. */
  lemma RelaySilentExactlyWhenInterrupted(s: State, e: Event, o: nat)
    requires Inv(s) && o < |s.ops| && !s.ops[o].relay.RelayEnded?
    requires o < |Step(s, e).ops| && Step(s, e).ops[o].relay.RelayEnded?
    ensures Step(s, e).ops[o].admissionReleases == s.ops[o].admissionReleases + 1 == 1
    ensures Step(s, e).ops[o].relay.report.None? <==>
      e == RelayCancelledWaiting(o) || e == StreamClosed(o, CloseCancelled) || e == StreamClosed(o, CloseFatal)
  {
    hide Accounted, Captured, Begin, PoolCloses, AllUnhealthy, SetHealth, Release, CallReport, FinalOutcome;
    if Named(e) != Some(o) {
      Untouched(s, e, o);
    }
  }

  /** Closing a relay settles everything it owns, whatever state the stream was left in:
      at end of stream, after a failure, on a disconnect or behind the close of the pool. */
  lemma RelayCloseSettles(s: State, o: nat, outcome: RelayOutcome, how: LeafClose)
    requires Inv(s) && Enabled(s, RelayClosed(o, outcome)) && s.ops[o].relay.Relaying?
    ensures var r := Step(Step(Step(s, RelayClosed(o, outcome)), StreamClosed(o, how)), RelayWoken(o));
      && Shaped(r) && o < |r.ops| && r.leases[o].released && r.ops[o].phase.Ended? && r.ops[o].relay.RelayEnded?
      && |r.ops[o].reports| == 1 && r.ops[o].admissionReleases == 1
  {
    hide Inv, Step, Later, Release, Fits;
    var a := Step(s, RelayClosed(o, outcome));
    var b := Step(a, StreamClosed(o, how));
    StepKeeps(s, RelayClosed(o, outcome));
    StepKeeps(a, StreamClosed(o, how));
    StepKeeps(b, RelayWoken(o));
    RelaySettles(s, o, outcome, how);
    Settled(Step(b, RelayWoken(o)), o);
  }

  lemma Settled(s: State, o: nat)
    requires Inv(s) && o < |s.ops| && s.ops[o].phase.Ended? && s.ops[o].relay.RelayEnded?
    ensures s.leases[o].released && |s.ops[o].reports| == 1 && s.ops[o].admissionReleases == 1
  {
    hide Accounted, Captured;
  }

  lemma RelayStartsClosing(s: State, o: nat, outcome: RelayOutcome)
    requires Inv(s) && Enabled(s, RelayClosed(o, outcome)) && s.ops[o].relay.Relaying?
    ensures var r := Step(s, RelayClosed(o, outcome));
      && o < |r.ops|
      && if s.ops[o].phase.Ended? then r.ops[o].phase.Ended? && r.ops[o].relay.RelayEnded?
         else r.ops[o].phase.Closing? && r.ops[o].relay.RelayClosing?
  {
    hide Accounted, Captured;
  }

  lemma StreamEnds(s: State, o: nat, how: LeafClose)
    requires Shaped(s) && o < |s.ops| && s.ops[o].phase.Closing? && s.ops[o].relay.RelayClosing?
    ensures var r := Step(s, StreamClosed(o, how));
      && o < |r.ops|
      && r.ops[o].phase.Ended? && (r.ops[o].relay.RelayClosing? || r.ops[o].relay.RelayEnded?)
  {
    hide Release, RelayReport, FinalOutcome;
  }

  lemma RelaySettles(s: State, o: nat, outcome: RelayOutcome, how: LeafClose)
    requires Inv(s) && Enabled(s, RelayClosed(o, outcome)) && s.ops[o].relay.Relaying?
    ensures var r := Step(Step(Step(s, RelayClosed(o, outcome)), StreamClosed(o, how)), RelayWoken(o));
      o < |r.ops| && r.ops[o].phase.Ended? && r.ops[o].relay.RelayEnded?
  {
    hide Inv, StreamCloses, RelayCloses;
    RelayStartsClosing(s, o, outcome);
    var a := Step(s, RelayClosed(o, outcome));
    if a.ops[o].phase.Closing? {
      StreamEnds(a, o, how);
    }
  }

  // ---------------------------------------------------------------- success

  lemma {:induction false} RunAppend(s: State, es: seq<Event>, e: Event)
    requires Shaped(s)
    ensures Run(s, es + [e]) == Step(Run(s, es), e)
    decreases |es|
  {
    hide Step;
    if es == [] {
      assert Run(s, [e]) == Run(Step(s, e), [e][1..]);
    } else {
      assert (es + [e])[0] == es[0] && (es + [e])[1..] == es[1..] + [e];
      RunAppend(Step(s, es[0]), es[1..], e);
    }
  }

  /** First the iterator of the stream reached its end, then closing the leaf was not disturbed. */
  ghost predicate EndedCleanly(es: seq<Event>, o: nat) {
    exists i, j :: 0 <= i < j < |es| && es[i] == IterationEnded(o, EndOfStream)
      && (es[j] == StreamClosed(o, CloseDone) || es[j] == StreamClosed(o, CloseFatal))
  }

  /** First the iterator of the stream reached its end, then the relay was closed as completed,
      and by that time the stream had ended and the loop of the relay had run to its end. */
  ghost predicate CompletedCleanly(n: nat, es: seq<Event>, o: nat)
    requires n > 0
  {
    exists i, j :: 0 <= i < j < |es| && es[i] == IterationEnded(o, EndOfStream)
      && es[j] == RelayClosed(o, Completed) && LoopDone(Run(Initial(n), es[..j]), o)
  }

  predicate LoopDone(s: State, o: nat) {
    o < |s.ops| && s.ops[o].phase.Ended? && s.ops[o].iteration == Over(Exhausted)
  }

  ghost predicate ReportDeserved(op: Op, es: seq<Event>, o: nat) {
    && (op.phase.Closing? && op.phase.outcome.Success? ==> IterationEnded(o, EndOfStream) in es)
    && (op.kind.Stream? && op.reports == [Success] ==> EndedCleanly(es, o))
  }

  ghost predicate RelayDeserved(n: nat, op: Op, es: seq<Event>, o: nat)
    requires n > 0
  {
    && (AtEnd(op.iteration) ==> IterationEnded(o, EndOfStream) in es)
    && (op.relay == RelayEnded(Some(Completed)) ==> CompletedCleanly(n, es, o))
    && (op.relay == RelayEnded(Some(UpstreamError)) ==>
          op.iteration == Over(RaisedError) || StreamClosed(o, CloseFailed) in es)
  }

  ghost predicate Deserved(n: nat, s: State, es: seq<Event>, o: nat)
    requires n > 0 && o < |s.ops|
  {
    ReportDeserved(s.ops[o], es, o) && RelayDeserved(n, s.ops[o], es, o)
  }

  /** The report an operation gets when it ends is the whole of its reports. */
  lemma SoleReport(op: Op, r: Outcome)
    requires op.reports == []
    ensures op.reports + [r] == [Success] <==> r == Success
  {
    assert (op.reports + [r])[0] == r;
  }

  /** How a stream comes to be closing as a success, or to be reported as one. */
  ghost predicate SuccessFollows(a: Op, b: Op, e: Event, o: nat) {
    && (b.phase.Closing? && b.phase.outcome.Success? ==> a.phase == b.phase || e == IterationEnded(o, EndOfStream))
    && (b.kind.Stream? && b.reports == [Success] ==>
          || (a.kind.Stream? && a.reports == [Success])
          || (a.phase.Closing? && a.phase.outcome.Success?
              && (e == StreamClosed(o, CloseDone) || e == StreamClosed(o, CloseFatal))))
  }

  lemma SuccessMoves(s: State, e: Event, o: nat)
    requires Shaped(s) && o < |s.ops| && Named(e) == Some(o) && o < |Step(s, e).ops|
    requires Fits(s.ops[o], s.leases[o], o in s.streams, s.closed)
    ensures SuccessFollows(s.ops[o], Step(s, e).ops[o], e, o)
  {
    hide Begin, PoolCloses, AllUnhealthy, SetHealth, Release, StreamFits, CallEnds, StreamCloses, IterationResultOf;
    if e.CallEnded? {
      CallSuccess(s, e, o);
    } else if e.StreamClosed? {
      CloseSuccess(s, e, o);
    }
  }

  lemma CloseSuccess(s: State, e: Event, o: nat)
    requires Shaped(s) && o < |s.ops| && e.StreamClosed? && e.o == o && o < |Step(s, e).ops|
    requires Fits(s.ops[o], s.leases[o], o in s.streams, s.closed)
    ensures SuccessFollows(s.ops[o], Step(s, e).ops[o], e, o)
  {
    hide Release, RelayReport, StreamFits, ResultAfterClose;
    var op := s.ops[o];
    if op.phase.Closing? {
      SoleReport(op, FinalOutcome(op.phase.outcome, e.leafClose));
    }
  }

  /** Ending a call makes no stream succeed. */
  lemma CallSuccess(s: State, e: Event, o: nat)
    requires Shaped(s) && o < |s.ops| && e.CallEnded? && e.o == o && o < |Step(s, e).ops|
    requires Fits(s.ops[o], s.leases[o], o in s.streams, s.closed)
    ensures var op := Step(s, e).ops[o];
      && (op.phase.Closing? && op.phase.outcome.Success? ==> s.ops[o].phase == op.phase)
      && (op.kind.Stream? && op.reports == [Success] ==> s.ops[o].kind.Stream? && s.ops[o].reports == [Success])
  {
    hide SetHealth, Release;
    var op := s.ops[o];
    if op.phase.Calling? && CallReport(op.kind, e.callEnd).Some? {
      SoleReport(op, CallReport(op.kind, e.callEnd).value);
    }
  }

  /** Only the end of its iteration, its close and its own waiting concern the iterator. */
  lemma IterationStays(s: State, e: Event, o: nat)
    requires Shaped(s) && o < |s.ops| && Named(e) == Some(o) && o < |Step(s, e).ops|
    requires !e.IterationEnded? && !e.IteratorWoken? && !e.IteratorCancelledWaiting? && !e.StreamClosed?
    ensures Step(s, e).ops[o].iteration == s.ops[o].iteration
  {
    hide Begin, PoolCloses, AllUnhealthy, SetHealth, Release, CallReport;
  }

  predicate AtEnd(i: Iteration) {
    i == Finishing(EndOfStream) || i == Over(Exhausted)
  }

  lemma CloseEndsIteration(s: State, o: nat, how: LeafClose)
    requires Shaped(s) && o < |s.ops| && s.ops[o].phase.Closing?
    ensures AtEnd(StreamCloses(s, o, how).ops[o].iteration) ==> AtEnd(s.ops[o].iteration)
  {
    hide Release, FinalOutcome, RelayReport;
  }

  /** How an iterator comes to be at its end. */
  lemma IterationMoves(s: State, e: Event, o: nat)
    requires Shaped(s) && o < |s.ops| && Named(e) == Some(o) && o < |Step(s, e).ops|
    ensures AtEnd(Step(s, e).ops[o].iteration) ==> AtEnd(s.ops[o].iteration) || e == IterationEnded(o, EndOfStream)
  {
    hide Begin, PoolCloses, AllUnhealthy, SetHealth, Release, CallEnds, StreamCloses, RelayCloses;
    if e.StreamClosed? {
      if Enabled(s, e) {
        CloseEndsIteration(s, o, e.leafClose);
      }
    } else if !e.IterationEnded? && !e.IteratorWoken? && !e.IteratorCancelledWaiting? {
      IterationStays(s, e, o);
    }
  }

  /** How a relay comes to report completion: by being closed as completed behind its loop. */
  lemma CompletionMoves(s: State, e: Event, o: nat)
    requires Shaped(s) && o < |s.ops| && Named(e) == Some(o) && o < |Step(s, e).ops|
    requires Fits(s.ops[o], s.leases[o], o in s.streams, s.closed)
    ensures Step(s, e).ops[o].relay == RelayEnded(Some(Completed)) ==>
      || s.ops[o].relay == RelayEnded(Some(Completed))
      || (e == RelayClosed(o, Completed) && LoopDone(s, o))
  {
    hide Begin, PoolCloses, AllUnhealthy, SetHealth, Release, CallReport, FinalOutcome, ResultAfterClose, IterationResultOf;
  }

  /** How a relay comes to report an error: its loop raised one, or closing the leaf failed. */
  lemma FailureMoves(s: State, e: Event, o: nat)
    requires Shaped(s) && o < |s.ops| && Named(e) == Some(o) && o < |Step(s, e).ops|
    requires Fits(s.ops[o], s.leases[o], o in s.streams, s.closed)
    ensures Step(s, e).ops[o].relay == RelayEnded(Some(UpstreamError)) ==>
      || s.ops[o].relay == RelayEnded(Some(UpstreamError))
      || s.ops[o].iteration == Over(RaisedError)
      || e == StreamClosed(o, CloseFailed)
  {
    hide Begin, PoolCloses, AllUnhealthy, SetHealth, Release, CallReport, FinalOutcome, ResultAfterClose, IterationResultOf;
  }

  lemma DeservedStep(n: nat, es: seq<Event>, e: Event, o: nat)
    requires n > 0 && Inv(Run(Initial(n), es)) && o < |Run(Initial(n), es).ops|
    requires Deserved(n, Run(Initial(n), es), es, o)
    requires o < |Step(Run(Initial(n), es), e).ops|
    ensures Deserved(n, Step(Run(Initial(n), es), e), es + [e], o)
  {
    hide Accounted, Captured, Step, Fits, Run, LoopDone;
    var s := Run(Initial(n), es);
    assert e in es + [e] && forall x :: x in es ==> x in es + [e];
    CleanlyGrows(es, e, o);
    CompletionGrows(n, es, e, o);
    if Named(e) == Some(o) {
      SuccessMoves(s, e, o);
      IterationMoves(s, e, o);
      CompletionMoves(s, e, o);
      FailureMoves(s, e, o);
      OpsExtend(s, e, o);
      if e == RelayClosed(o, Completed) {
        DoneIsAtItsEnd(s, o);
      }
    } else {
      Untouched(s, e, o);
    }
  }

  lemma DoneIsAtItsEnd(s: State, o: nat)
    requires o < |s.ops|
    ensures LoopDone(s, o) ==> s.ops[o].iteration == Over(Exhausted)
  {
  }

  lemma CleanlyGrows(es: seq<Event>, e: Event, o: nat)
    ensures EndedCleanly(es, o) ==> EndedCleanly(es + [e], o)
    ensures IterationEnded(o, EndOfStream) in es && (e == StreamClosed(o, CloseDone) || e == StreamClosed(o, CloseFatal)) ==>
      EndedCleanly(es + [e], o)
  {
    var t := es + [e];
    if EndedCleanly(es, o) {
      var i, j :| 0 <= i < j < |es| && es[i] == IterationEnded(o, EndOfStream)
        && (es[j] == StreamClosed(o, CloseDone) || es[j] == StreamClosed(o, CloseFatal));
      assert t[i] == es[i] && t[j] == es[j];
    }
    if IterationEnded(o, EndOfStream) in es {
      var i := IndexOf(es, IterationEnded(o, EndOfStream));
      assert t[i] == es[i] && t[|es|] == e;
    }
  }

  lemma CompletionGrows(n: nat, es: seq<Event>, e: Event, o: nat)
    requires n > 0
    ensures CompletedCleanly(n, es, o) ==> CompletedCleanly(n, es + [e], o)
    ensures IterationEnded(o, EndOfStream) in es && e == RelayClosed(o, Completed) && LoopDone(Run(Initial(n), es), o) ==>
      CompletedCleanly(n, es + [e], o)
  {
    hide Run, LoopDone;
    var t := es + [e];
    if CompletedCleanly(n, es, o) {
      var i, j :| 0 <= i < j < |es| && es[i] == IterationEnded(o, EndOfStream)
        && es[j] == RelayClosed(o, Completed) && LoopDone(Run(Initial(n), es[..j]), o);
      assert t[i] == es[i] && t[j] == es[j] && t[..j] == es[..j];
    }
    if IterationEnded(o, EndOfStream) in es {
      var i := IndexOf(es, IterationEnded(o, EndOfStream));
      assert t[i] == es[i] && t[|es|] == e && t[..|es|] == es;
    }
  }

  /** A routed stream counts as a success only if its iterator reached the end of the stream
      before the leaf was closed. A relay reports completion only if the iterator reached the
      end, the stream had ended and the loop had run to its end before the relay was closed; it
      reports an error only if the loop raised one or closing the leaf failed. */
  lemma {:induction false} SuccessIsDeserved(n: nat, es: seq<Event>, o: nat)
    requires n > 0 && o < |Run(Initial(n), es).ops|
    ensures Deserved(n, Run(Initial(n), es), es, o)
    decreases |es|
  {
    hide Inv, Step, Deserved, Run;
    NoOperationsYet(n);
    if es != [] {
      var k := |es| - 1;
      assert es == es[..k] + [es[k]];
      var s := Run(Initial(n), es[..k]);
      RunAppend(Initial(n), es[..k], es[k]);
      InitialInv(n);
      RunKeeps(Initial(n), es[..k]);
      if o < |s.ops| {
        SuccessIsDeserved(n, es[..k], o);
        DeservedStep(n, es[..k], es[k], o);
      } else {
        NewIsDeserved(n, s, es, o, es[k]);
      }
    }
  }

  lemma NoOperationsYet(n: nat)
    requires n > 0
    ensures Run(Initial(n), []).ops == []
  {
  }

  lemma NewIsDeserved(n: nat, s: State, es: seq<Event>, o: nat, e: Event)
    requires n > 0 && Shaped(s) && |s.ops| <= o < |Step(s, e).ops|
    ensures Deserved(n, Step(s, e), es, o)
  {
    hide Chosen, SetHealth, Release, CallReport, RelayReport, FinalOutcome;
  }

  // ---------------------------------------------------------------- closing

  /** Nothing is routed, nothing can be, and every load is zero. */
  ghost predicate Dry(s: State) {
    && s.shutdown.Finished? && s.closed && !AnyHealthy(s.slots)
    && (forall i :: 0 <= i < |s.slots| ==> s.slots[i].inflight == 0)
    && (forall l :: 0 <= l < |s.leases| ==> s.leases[l].released)
  }

  lemma FinishedIsDry(s: State)
    requires Inv(s) && s.shutdown.Finished?
    ensures Dry(s)
  {
    hide Owned;
    forall l: nat | l < |s.leases| ensures s.leases[l].released {
      assert l !in s.active;
    }
    forall i | 0 <= i < |s.slots| ensures s.slots[i].inflight == 0 {
      TotalZero(s.leases, Load(i));
    }
  }

  /** Once `close` has completed every load is zero and stays zero, whatever ends, is
      released, is probed or is asked for later; and no operation begins any more. */
  lemma ClosedForGood(n: nat, s: State, es: seq<Event>)
    requires Reachable(n, s) && s.shutdown.Finished? && Shaped(s)
    ensures Dry(s) && Dry(Run(s, es)) && |Run(s, es).ops| == |s.ops|
  {
    hide Run, Inv, Dry;
    EveryReachableStateIsGood(n, s);
    StaysFinished(s, es);
    RunKeeps(s, es);
    FinishedIsDry(s);
    FinishedIsDry(Run(s, es));
  }

  lemma FinishedStep(s: State, e: Event)
    requires Inv(s) && s.shutdown.Finished?
    ensures Step(s, e).shutdown.Finished? && |Step(s, e).ops| == |s.ops|
  {
    hide Accounted, Owned, Release, SetHealth, CallReport, RelayReport, FinalOutcome;
  }

  lemma {:induction false} StaysFinished(s: State, es: seq<Event>)
    requires Inv(s) && s.shutdown.Finished?
    ensures Run(s, es).shutdown.Finished? && |Run(s, es).ops| == |s.ops|
    decreases |es|
  {
    hide Inv, Step;
    if es != [] {
      FinishedStep(s, es[0]);
      StepKeeps(s, es[0]);
      StaysFinished(Step(s, es[0]), es[1..]);
    }
  }

  /** The rest of `close` once its streams have ended: release the first `k` leases, if captured. */
  function Releases(k: nat): (es: seq<Event>)
    ensures |es| == k
  {
    seq(k, (l: nat) => CloseReleases(l))
  }

  lemma {:induction false} ReleasesRun(s: State, k: nat)
    requires Inv(s) && s.shutdown.Releasing? && k <= |s.leases|
    ensures var r := Run(s, Releases(k));
      && Inv(r) && r.shutdown == s.shutdown && |r.leases| == |s.leases|
      && forall l: nat :: l < k && l in s.shutdown.leases ==> r.leases[l].released
  {
    hide Inv, Step, Run;
    if k == 0 {
      NothingRuns(s);
    } else {
      ReleasesRun(s, k - 1);
      assert Releases(k) == Releases(k - 1) + [CloseReleases(k - 1)];
      RunAppend(s, Releases(k - 1), CloseReleases(k - 1));
      var r := Run(s, Releases(k - 1));
      StepKeeps(r, CloseReleases(k - 1));
      ReleaseStep(r, k - 1);
    }
  }

  lemma NothingRuns(s: State)
    requires Shaped(s)
    ensures Run(s, Releases(0)) == s
  {
  }

  lemma ReleaseStep(s: State, l: nat)
    requires Inv(s) && s.shutdown.Releasing? && l < |s.leases|
    ensures var r := Step(s, CloseReleases(l));
      && r.shutdown == s.shutdown && |r.leases| == |s.leases|
      && (l in s.shutdown.leases ==> r.leases[l].released)
      && forall k :: 0 <= k < |s.leases| && s.leases[k].released ==> r.leases[k].released
  {
    hide Owned, Captured;
    ReleaseKeeps(s, l);
  }

  /** `close` gets through: once the streams it captured have ended, releasing the captured
      leases is enough for it to complete, although other operations may still be running. */
  lemma CloseGetsThrough(s: State)
    requires Inv(s) && s.shutdown.Draining?
    requires forall o :: o in s.shutdown.streams && o < |s.ops| ==> s.ops[o].phase.Ended?
    ensures var r := Run(Step(s, StreamsDrained), Releases(|s.leases|));
      Inv(r) && Enabled(r, CloseEnds) && Dry(Step(r, CloseEnds))
  {
    hide Inv, Run, Dry, Release;
    StepKeeps(s, StreamsDrained);
    ReleasesRun(Step(s, StreamsDrained), |s.leases|);
    var r := Run(Step(s, StreamsDrained), Releases(|s.leases|));
    StepKeeps(r, CloseEnds);
    FinishedIsDry(Step(r, CloseEnds));
  }
}
