/** Backend routing as a state machine over values: the critical sections of
    `gateway/routing/pool.py`, the ends of the calls it awaits, and the relays of
    `gateway/streaming/relay.py` that own a routed stream together with an admission lease.

    Backends are numbered by position. Every operation that selects a backend has one lease,
    and both carry the same number. */
module RoutingModel {
  import opened Collections

  datatype Health = Unknown | Healthy | Unhealthy
  datatype Slot = Slot(health: Health, inflight: int)
  datatype Lease = Lease(slot: nat, weight: nat, released: bool)

  datatype Kind = Generate | Stream | Batch(size: nat) {
    function Weight(): nat { if Batch? then size else 1 }
  }

  /** What the pool reports for an operation. */
  datatype Outcome = Success | Error | Cancelled

  /** How an awaited backend call ends. `Fatal` is an exception outside `Exception`
      other than a cancellation; `HealthFailure` is one that marks the backend unhealthy. */
  datatype CallEnd = Returned | CallCancelled | HealthFailure | Failure | Fatal

  /** How the iteration over the leaf of a routed stream ends; `IterationFatal` is also the
      closing of the iterator by its consumer. */
  datatype IterationEnd = EndOfStream | IterationCancelled | IterationHealthFailure | IterationFailure | IterationFatal

  /** How the routed iterator itself ends, once its `_finish` is through. */
  datatype IterationResult = Exhausted | RaisedCancelled | RaisedError | RaisedFatal

  /** `Finishing` while the iterator of a routed stream awaits its `_finish`. */
  datatype Iteration = Iterating | Finishing(how: IterationEnd) | Over(result: IterationResult)

  /** How closing the leaf stream ends. */
  datatype LeafClose = CloseDone | CloseCancelled | CloseFailed | CloseFatal

  /** Whose call runs the closing of a routed stream: the one that failed to register it,
      its relay, its iterator, or the pool or another explicit close. */
  datatype Closer = Opener | ByRelay | ByIterator | Other

  /** `Closing` while the close of the leaf stream is awaited. */
  datatype Phase = Calling | Streaming | Closing(outcome: Outcome, closer: Closer) | Ended

  datatype RelayOutcome = Completed | RelayCancelled | UpstreamError
  datatype Relay = NoRelay | Relaying | RelayClosing(outcome: RelayOutcome) | RelayEnded(report: Option<RelayOutcome>)

  /** `fatal` marks an operation that a fatal exception ended without a report. */
  datatype Op = Op(kind: Kind, phase: Phase, reports: seq<Outcome>, fatal: bool,
                   iteration: Iteration, relay: Relay, admissionReleases: nat)

  /** The progress of `close`, with what it captured. */
  datatype Shutdown =
    | Running
    | Draining(leases: set<nat>, streams: set<nat>)
    | Releasing(leases: set<nat>)
    | Finished
    | Aborted

  datatype State = State(
    slots: seq<Slot>,
    cursor: nat,
    leases: seq<Lease>,
    active: set<nat>,
    streams: set<nat>,
    ops: seq<Op>,
    closed: bool,
    shutdown: Shutdown,
    fault: bool)          // the accounting error was raised

  function Initial(n: nat): State {
    State(seq(n, _ => Slot(Unknown, 0)), 0, [], {}, {}, [], false, Running, false)
  }

  predicate Shaped(s: State) {
    && s.cursor < |s.slots|
    && |s.ops| == |s.leases|
    && (forall l :: 0 <= l < |s.leases| ==> s.leases[l].slot < |s.slots|)
  }

  // ---------------------------------------------------------------- selection

  /** The backend is healthy, and no healthy one carries less. */
  predicate LeastLoaded(slots: seq<Slot>, i: nat) {
    && i < |slots| && slots[i].health.Healthy?
    && forall j :: 0 <= j < |slots| && slots[j].health.Healthy? ==> slots[i].inflight <= slots[j].inflight
  }

  /** The backend `offset` places after the cursor. */
  function At(n: nat, cursor: nat, offset: nat): (i: nat)
    requires n > 0
    ensures i < n
  {
    (cursor + offset) % n
  }

  /** The first least loaded backend at `offset` or further from the cursor. */
  function Search(slots: seq<Slot>, cursor: nat, offset: nat): Option<nat>
    requires slots != []
    decreases |slots| - offset
  {
    if offset >= |slots| then None
    else if LeastLoaded(slots, At(|slots|, cursor, offset)) then Some(At(|slots|, cursor, offset))
    else Search(slots, cursor, offset + 1)
  }

  function Chosen(slots: seq<Slot>, cursor: nat): Option<nat>
    requires slots != []
  {
    Search(slots, cursor, 0)
  }

  function AddLoad(slots: seq<Slot>, i: nat, weight: int): seq<Slot>
    requires i < |slots|
  {
    slots[i := slots[i].(inflight := slots[i].inflight + weight)]
  }

  /** `_select` on behalf of a new operation; without a backend there is no operation. */
  function Begin(s: State, kind: Kind): (r: State)
    requires Shaped(s)
    ensures Shaped(r)
  {
    if kind.Weight() == 0 || s.closed then s else
      match Chosen(s.slots, s.cursor)
      case None => s
      case Some(i) =>
        if i >= |s.slots| then s else
        s.(slots := AddLoad(s.slots, i, kind.Weight()),
           cursor := (i + 1) % |s.slots|,
           leases := s.leases + [Lease(i, kind.Weight(), false)],
           active := s.active + {|s.leases|},
           ops := s.ops + [Op(kind, Calling, [], false, Iterating, NoRelay, 0)])
  }

  // ---------------------------------------------------------------- critical sections

  function Release(s: State, l: nat): (r: State)
    requires Shaped(s) && l < |s.leases|
    ensures Shaped(r) && |r.slots| == |s.slots|
    ensures r == s.(slots := r.slots, leases := r.leases, active := r.active, fault := r.fault)
    ensures r.leases == s.leases || r.leases == s.leases[l := s.leases[l].(released := true)]
  {
    var lease := s.leases[l];
    if lease.released then s
    else if s.slots[lease.slot].inflight < lease.weight then s.(fault := true)
    else s.(slots := AddLoad(s.slots, lease.slot, 0 - lease.weight),
            leases := s.leases[l := lease.(released := true)],
            active := s.active - {l})
  }

  function SetHealth(s: State, i: nat, healthy: bool): (r: State)
    requires Shaped(s) && i < |s.slots|
    ensures Shaped(r) && |r.slots| == |s.slots|
    ensures r == s.(slots := r.slots)
  {
    if s.closed then s else
      s.(slots := s.slots[i := s.slots[i].(health := if healthy then Healthy else Unhealthy)])
  }

  function WithOp(s: State, o: nat, op: Op): (r: State)
    requires Shaped(s) && o < |s.ops|
    ensures Shaped(r)
  {
    s.(ops := s.ops[o := op])
  }

  // ---------------------------------------------------------------- calls

  /** The outcome of a call that ended without a stream to own. A fatal exception passes
      the handlers of `generate` and `generate_batch`, but not those of `stream`. */
  function CallReport(kind: Kind, how: CallEnd): Option<Outcome> {
    match how
    case Returned => Some(Success)
    case CallCancelled => Some(Cancelled)
    case HealthFailure => Some(Error)
    case Failure => Some(Error)
    case Fatal => if kind.Stream? then Some(Error) else None
  }

  function Reported(report: Option<Outcome>): seq<Outcome> {
    if report.Some? then [report.value] else []
  }

  /** The backend call of `o` ends. A stream that opened gets its relay, unless the pool has
      closed meanwhile: then it is closed again at once. */
  function CallEnds(s: State, o: nat, how: CallEnd): (r: State)
    requires Shaped(s) && o < |s.ops|
    ensures Shaped(r)
    ensures |r.ops| == |s.ops| && r.ops == s.ops[o := r.ops[o]]
  {
    var op := s.ops[o];
    if op.kind.Stream? && how.Returned? then
      if s.closed
      then WithOp(s, o, op.(phase := Closing(Error, Opener)))
      else WithOp(s, o, op.(phase := Streaming, relay := Relaying)).(streams := s.streams + {o})
    else
      var report := CallReport(op.kind, how);
      var marked := if how.HealthFailure? then SetHealth(s, s.leases[o].slot, false) else s;
      WithOp(Release(marked, o), o,
             op.(phase := Ended, reports := op.reports + Reported(report), fatal := report.None?,
                 admissionReleases := op.admissionReleases + if op.kind.Stream? then 1 else 0))
  }

  // ---------------------------------------------------------------- streams and relays

  function IterationOutcome(how: IterationEnd): Outcome {
    match how
    case EndOfStream => Success
    case IterationCancelled => Cancelled
    case IterationHealthFailure => Error
    case IterationFailure => Error
    case IterationFatal => Cancelled
  }

  /** What the consumer of the iterator sees if `_finish` returns. */
  function IterationResultOf(how: IterationEnd): IterationResult {
    match how
    case EndOfStream => Exhausted
    case IterationCancelled => RaisedCancelled
    case IterationHealthFailure => RaisedError
    case IterationFailure => RaisedError
    case IterationFatal => RaisedFatal
  }

  /** What it sees after the iterator's own close of the leaf: an exception there replaces the rest. */
  function ResultAfterClose(how: IterationEnd, leaf: LeafClose): IterationResult {
    match leaf
    case CloseDone => IterationResultOf(how)
    case CloseCancelled => RaisedCancelled
    case CloseFailed => RaisedError
    case CloseFatal => RaisedFatal
  }

  /** `RoutedBackendStream._finish` up to the close of the leaf stream: only the first call gets there. */
  function Finish(s: State, o: nat, outcome: Outcome, closer: Closer): (r: State)
    requires Shaped(s) && o < |s.ops|
    ensures Shaped(r) && r == s.(ops := r.ops) && |r.ops| == |s.ops|
    ensures r.ops == s.ops[o := r.ops[o]]
  {
    if s.ops[o].phase.Streaming? then WithOp(s, o, s.ops[o].(phase := Closing(outcome, closer))) else s
  }

  /** The iteration over the leaf ends: the iterator awaits its `_finish`, closing the leaf or
      waiting for whoever does; if the stream is closed already it is over at once. */
  function IterationEnds(s: State, o: nat, how: IterationEnd): (r: State)
    requires Shaped(s) && o < |s.ops|
    ensures Shaped(r) && r.leases == s.leases
    ensures |r.ops| == |s.ops| && r.ops == s.ops[o := r.ops[o]]
  {
    var marked := if how.IterationHealthFailure? then SetHealth(s, s.leases[o].slot, false) else s;
    var op := marked.ops[o];
    if op.phase.Ended? then WithOp(marked, o, op.(iteration := Over(IterationResultOf(how))))
    else Finish(WithOp(marked, o, op.(iteration := Finishing(how))), o, IterationOutcome(how), ByIterator)
  }

  /** The iterator that waited for the close lock gets it, or is cancelled before. */
  function IteratorStops(s: State, o: nat, woken: bool): (r: State)
    requires Shaped(s) && o < |s.ops|
    ensures Shaped(r) && r.leases == s.leases
    ensures |r.ops| == |s.ops| && r.ops == s.ops[o := r.ops[o]]
  {
    var op := s.ops[o];
    if !op.iteration.Finishing? then s
    else WithOp(s, o, op.(iteration := Over(if woken then IterationResultOf(op.iteration.how) else RaisedCancelled)))
  }

  function FinalOutcome(outcome: Outcome, how: LeafClose): Outcome {
    match how
    case CloseDone => outcome
    case CloseCancelled => Cancelled
    case CloseFailed => Error
    case CloseFatal => outcome
  }

  /** What `aclose` of the relay reports when closing the routed stream ends: nothing if it is
      interrupted, since everything after the release of the lease is then skipped. */
  function RelayReport(outcome: RelayOutcome, how: LeafClose): Option<RelayOutcome> {
    match how
    case CloseDone => Some(outcome)
    case CloseCancelled => None
    case CloseFailed => Some(UpstreamError)
    case CloseFatal => None
  }

  function EndRelay(op: Op, report: Option<RelayOutcome>): Op {
    op.(relay := RelayEnded(report), admissionReleases := op.admissionReleases + 1)
  }

  /** Closing the leaf stream of `o` ends: the rest of `_finish`, and of the call that awaited it. */
  function StreamCloses(s: State, o: nat, how: LeafClose): (r: State)
    requires Shaped(s) && o < |s.ops| && s.ops[o].phase.Closing?
    ensures Shaped(r)
    ensures |r.ops| == |s.ops| && r.ops == s.ops[o := r.ops[o]]
  {
    var op := s.ops[o];
    var ended := op.(phase := Ended, reports := op.reports + [FinalOutcome(op.phase.outcome, how)]);
    var last :=
      match op.phase.closer
      case Opener => ended.(admissionReleases := op.admissionReleases + 1)
      case ByRelay => if op.relay.RelayClosing? then EndRelay(ended, RelayReport(op.relay.outcome, how)) else ended
      case ByIterator =>
        if op.iteration.Finishing? then ended.(iteration := Over(ResultAfterClose(op.iteration.how, how))) else ended
      case Other => ended;
    WithOp(Release(s, o), o, last).(streams := s.streams - {o})
  }

  /** `StreamingRelay.aclose`: only the first call closes the routed stream, or waits for whoever does. */
  function RelayCloses(s: State, o: nat, outcome: RelayOutcome): (r: State)
    requires Shaped(s) && o < |s.ops|
    ensures Shaped(r) && r.leases == s.leases
    ensures |r.ops| == |s.ops| && r.ops == s.ops[o := r.ops[o]]
  {
    var op := s.ops[o];
    if !op.relay.Relaying? then s
    else if op.phase.Ended? then WithOp(s, o, EndRelay(op, Some(outcome)))
    else Finish(WithOp(s, o, op.(relay := RelayClosing(outcome))), o, Cancelled, ByRelay)
  }

  /** The relay gets the close lock after another call has closed the stream. */
  function RelayWakes(s: State, o: nat): (r: State)
    requires Shaped(s) && o < |s.ops|
    ensures Shaped(r)
  {
    var op := s.ops[o];
    if op.relay.RelayClosing? then WithOp(s, o, EndRelay(op, Some(op.relay.outcome))) else s
  }

  /** The relay is cancelled while it waits for the close lock. */
  function RelayInterrupted(s: State, o: nat): (r: State)
    requires Shaped(s) && o < |s.ops|
    ensures Shaped(r)
  {
    if s.ops[o].relay.RelayClosing? then WithOp(s, o, EndRelay(s.ops[o], None)) else s
  }

  // ---------------------------------------------------------------- closing the pool

  function PoolCloses(s: State): State {
    if s.closed then s else s.(closed := true, shutdown := Draining(s.active, s.streams))
  }

  function AllUnhealthy(slots: seq<Slot>): (r: seq<Slot>)
    ensures |r| == |slots|
  {
    seq(|slots|, (i: nat) requires i < |slots| => slots[i].(health := Unhealthy))
  }

  // ---------------------------------------------------------------- runs

  datatype Event =
    | Begins(kind: Kind)
    | CallEnded(o: nat, callEnd: CallEnd)
    | IterationEnded(o: nat, iterationEnd: IterationEnd)
    | IteratorWoken(o: nat)
    | IteratorCancelledWaiting(o: nat)
    | StreamAbandoned(o: nat)
    | StreamClosed(o: nat, leafClose: LeafClose)
    | RelayClosed(o: nat, relayOutcome: RelayOutcome)
    | RelayWoken(o: nat)
    | RelayCancelledWaiting(o: nat)
    | Probed(slot: nat, healthy: bool)
    | CloseBegins
    | StreamsDrained
    | CloseReleases(l: nat)
    | CloseEnds
    | CloseCancelledMidway

  /** When the event loop can take the step. A relay closes as completed only after its loop
      over the routed stream ran to the end, as failed only after the loop raised an error, and
      as cancelled at any time. */
  predicate Enabled(s: State, e: Event)
    requires Shaped(s)
  {
    match e
    case Begins(_) => true
    case CallEnded(o, _) => o < |s.ops| && s.ops[o].phase.Calling?
    case IterationEnded(o, _) => o < |s.ops| && !s.ops[o].relay.NoRelay? && s.ops[o].iteration.Iterating?
    case IteratorWoken(o) => o < |s.ops| && s.ops[o].iteration.Finishing? && s.ops[o].phase.Ended?
    case IteratorCancelledWaiting(o) =>
      && o < |s.ops| && s.ops[o].iteration.Finishing?
      && (s.ops[o].phase.Ended? || (s.ops[o].phase.Closing? && !s.ops[o].phase.closer.ByIterator?))
    case StreamAbandoned(o) => o < |s.ops| && !s.ops[o].relay.NoRelay?
    case StreamClosed(o, _) => o < |s.ops| && s.ops[o].phase.Closing?
    case RelayClosed(o, outcome) =>
      && o < |s.ops| && !s.ops[o].relay.NoRelay?
      && (outcome.Completed? ==> s.ops[o].iteration == Over(Exhausted))
      && (outcome.UpstreamError? ==> s.ops[o].iteration == Over(RaisedError))
    case RelayWoken(o) => o < |s.ops| && s.ops[o].relay.RelayClosing? && s.ops[o].phase.Ended?
    case RelayCancelledWaiting(o) =>
      && o < |s.ops| && s.ops[o].relay.RelayClosing?
      && (s.ops[o].phase.Ended? || (s.ops[o].phase.Closing? && !s.ops[o].phase.closer.ByRelay?))
    case Probed(i, _) => i < |s.slots|
    case CloseBegins => true
    case StreamsDrained =>
      && s.shutdown.Draining?
      && (forall o :: o in s.shutdown.streams && o < |s.ops| ==> s.ops[o].phase.Ended?)
    case CloseReleases(l) => s.shutdown.Releasing? && l in s.shutdown.leases && l < |s.leases|
    case CloseEnds =>
      && s.shutdown.Releasing?
      && (forall l :: l in s.shutdown.leases && l < |s.leases| ==> s.leases[l].released)
    case CloseCancelledMidway => s.shutdown.Draining? || s.shutdown.Releasing?
  }

  /** A step that cannot happen leaves the state as it is. */
  function Step(s: State, e: Event): (r: State)
    requires Shaped(s)
    ensures Shaped(r)
  {
    if !Enabled(s, e) then s else
    match e
    case Begins(kind) => Begin(s, kind)
    case CallEnded(o, how) => CallEnds(s, o, how)
    case IterationEnded(o, how) => IterationEnds(s, o, how)
    case IteratorWoken(o) => IteratorStops(s, o, true)
    case IteratorCancelledWaiting(o) => IteratorStops(s, o, false)
    case StreamAbandoned(o) => Finish(s, o, Cancelled, Other)
    case StreamClosed(o, how) => StreamCloses(s, o, how)
    case RelayClosed(o, outcome) => RelayCloses(s, o, outcome)
    case RelayWoken(o) => RelayWakes(s, o)
    case RelayCancelledWaiting(o) => RelayInterrupted(s, o)
    case Probed(i, healthy) => SetHealth(s, i, healthy)
    case CloseBegins => PoolCloses(s)
    case StreamsDrained => s.(shutdown := Releasing(s.shutdown.leases))
    case CloseReleases(l) => Release(s, l)
    case CloseEnds => s.(shutdown := Finished, slots := AllUnhealthy(s.slots))
    case CloseCancelledMidway => s.(shutdown := Aborted)
  }

  function Run(s: State, es: seq<Event>): (r: State)
    requires Shaped(s)
    ensures Shaped(r)
    decreases |es|
  {
    if es == [] then s else Run(Step(s, es[0]), es[1..])
  }
}
