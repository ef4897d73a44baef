/** Runs of one backend and one operation that reach the ends the theorems single out. */
module RoutingRuns {
  import opened Collections
  import opened RoutingModel
  import opened RoutingTheorems

  const UP := State([Slot(Healthy, 0)], 0, [], {}, {}, [], false, Running, false)

  function Called(kind: Kind): State {
    State([Slot(Healthy, 1)], 0, [Lease(0, 1, false)], {0}, {},
          [Op(kind, Calling, [], false, Iterating, NoRelay, 0)], false, Running, false)
  }

  const OPEN := Called(Stream).(streams := {0}, ops := [Op(Stream, Streaming, [], false, Iterating, Relaying, 0)])

  const OPENING := [Probed(0, true), Begins(Stream), CallEnded(0, Returned)]

  lemma Probes()
    ensures Step(Initial(1), Probed(0, true)) == UP
  {
    assert Initial(1).slots == [Slot(Unknown, 0)];
  }

  lemma Calls(kind: Kind)
    requires kind == Generate || kind == Stream
    ensures Step(UP, Begins(kind)) == Called(kind)
  {
    var slots := UP.slots;
    assert At(1, 0, 0) == 0 && LeastLoaded(slots, 0);
    assert Chosen(slots, 0) == Some(0);
    assert AddLoad(slots, 0, 1) == [Slot(Healthy, 1)];
    assert UP.leases + [Lease(0, 1, false)] == [Lease(0, 1, false)] && UP.active + {0} == {0};
  }

  lemma Opens()
    ensures Step(Called(Stream), CallEnded(0, Returned)) == OPEN
  {
    var s := Called(Stream);
    assert s.streams + {0} == {0};
    assert s.ops[0 := OPEN.ops[0]] == OPEN.ops;
  }

  lemma Starts(kind: Kind)
    requires kind == Generate || kind == Stream
    ensures Run(Initial(1), [Probed(0, true), Begins(kind)]) == Called(kind)
  {
    hide Step;
    RunAppend(Initial(1), [], Probed(0, true));
    RunAppend(Initial(1), [Probed(0, true)], Begins(kind));
    assert [] + [Probed(0, true)] == [Probed(0, true)];
    assert [Probed(0, true)] + [Begins(kind)] == [Probed(0, true), Begins(kind)];
    Probes();
    Calls(kind);
  }

  lemma OpenIsReached()
    ensures Run(Initial(1), OPENING) == OPEN
  {
    hide Step, Run;
    Starts(Stream);
    RunAppend(Initial(1), [Probed(0, true), Begins(Stream)], CallEnded(0, Returned));
    assert [Probed(0, true), Begins(Stream)] + [CallEnded(0, Returned)] == OPENING;
    Opens();
  }

  /** A call of `generate` that ends in a fatal exception reports nothing. */
  lemma SilentEndIsReachable()
    ensures var s := Run(Initial(1), [Probed(0, true), Begins(Generate), CallEnded(0, Fatal)]);
      |s.ops| == 1 && s.ops[0].phase.Ended? && s.ops[0].reports == [] && s.leases[0].released
  {
    hide Run;
    Starts(Generate);
    RunAppend(Initial(1), [Probed(0, true), Begins(Generate)], CallEnded(0, Fatal));
    assert [Probed(0, true), Begins(Generate)] + [CallEnded(0, Fatal)]
        == [Probed(0, true), Begins(Generate), CallEnded(0, Fatal)];
  }

  /** A relay whose close is cancelled releases the admission lease and reports nothing. */
  lemma SilentRelayIsReachable()
    ensures var s := Run(Initial(1), OPENING + [RelayClosed(0, RelayCancelled), StreamClosed(0, CloseCancelled)]);
      |s.ops| == 1 && s.ops[0].relay == RelayEnded(None) && s.ops[0].admissionReleases == 1
  {
    hide Run;
    var a, b := RelayClosed(0, RelayCancelled), StreamClosed(0, CloseCancelled);
    OpenIsReached();
    RunAppend(Initial(1), OPENING, a);
    RunAppend(Initial(1), OPENING + [a], b);
    assert OPENING + [a] + [b] == OPENING + [a, b];
    var s := Step(OPEN, a);
    assert s.ops == [Op(Stream, Closing(Cancelled, ByRelay), [], false, Iterating, RelayClosing(RelayCancelled), 0)];
  }

  /** A stream that is read to its end completes, and its operation is a success. */
  lemma CompletionIsReachable()
    ensures var s := Run(Initial(1),
        OPENING + [IterationEnded(0, EndOfStream), StreamClosed(0, CloseDone), RelayClosed(0, Completed)]);
      |s.ops| == 1 && s.ops[0].relay == RelayEnded(Some(Completed)) && s.ops[0].reports == [Success]
  {
    hide Run;
    var a, b, d := IterationEnded(0, EndOfStream), StreamClosed(0, CloseDone), RelayClosed(0, Completed);
    OpenIsReached();
    RunAppend(Initial(1), OPENING, a);
    RunAppend(Initial(1), OPENING + [a], b);
    RunAppend(Initial(1), OPENING + [a] + [b], d);
    assert OPENING + [a] + [b] + [d] == OPENING + [a, b, d];
    var s := Step(OPEN, a);
    assert s.ops == [Op(Stream, Closing(Success, ByIterator), [], false, Finishing(EndOfStream), Relaying, 0)];
    assert s.ops[0].reports + [Success] == [Success];
    var r := Step(s, b);
    assert r.ops == [Op(Stream, Ended, [Success], false, Over(Exhausted), Relaying, 0)];
  }
}
