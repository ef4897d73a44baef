/** The run in which a late timeout loses a lease: one place, taken and waited for, is released
    to the waiter, and then the timeout of the waiter is processed. */
module LateTimeouts {
  import opened AdmissionModel
  import opened AdmissionRuns
  import opened AdmissionTheorems

  const ONE_PLACE := Config([TenantLimits(1, 1)], 1, 1)
  const HELD := Lease(0, false, Caller)

  const TAKEN := State([1], [[]], [], {}, 1, 0, false, [], [HELD], false)
  const AWAITED := State([1], [[0]], [0], {0}, 1, 1, false, [Waiter(0, Unresolved, true)], [HELD], false)
  const GRANTED := State([1], [[]], [], {}, 1, 0, false, [Waiter(0, Granted(1), true)],
                         [HELD.(released := true), Lease(0, false, Pending(0))], false)

  lemma Takes()
    ensures Step(ONE_PLACE, Initial(ONE_PLACE), AcquireBy(0)) == TAKEN
  {
    var s := Initial(ONE_PLACE);
    assert s.inflight == [0] && s.queues == [[]];
  }

  lemma Waits()
    ensures Step(ONE_PLACE, TAKEN, AcquireBy(0)) == AWAITED
  {
    hide Scan;
    var s := TAKEN;
    assert s.queues[0] + [0] == [0] && s.queues[0 := [0]] == [[0]];
    assert s.ring + [0] == [0] && s.ringIds + {0} == {0};
    assert s.waiters + [Waiter(0, Unresolved, true)] == [Waiter(0, Unresolved, true)];
    assert Enqueue(ONE_PLACE, s, 0) == AWAITED;
  }

  /** The candidate, its queue popped, with the freed place. */
  lemma Grants(m: State)
    requires m == AWAITED.(leases := [HELD.(released := true)], inflight := [0], globalInflight := 0)
    ensures Shaped(ONE_PLACE, m) && Examine(ONE_PLACE, m) == Scanned(GRANTED, true)
  {
    var p := TakeHead(ONE_PLACE, m);
    assert p.ring == [] && p.ringIds == {};
    assert DiscardCompleted(ONE_PLACE, p, 0) == p;
    assert p.queues[0][1..] == [] && p.queues[0 := []] == [[]];
    assert p.inflight[0 := 1] == [1];
    assert p.leases + [Lease(0, false, Pending(0))] == GRANTED.leases;
    assert p.waiters[0 := Waiter(0, Granted(1), true)] == GRANTED.waiters;
  }

  lemma Releases()
    ensures Step(ONE_PLACE, AWAITED, Release(0)) == GRANTED
  {
    hide Examine;
    var s := AWAITED;
    var m := s.(leases := [HELD.(released := true)], inflight := [0], globalInflight := 0);
    assert s.leases[0 := HELD.(released := true)] == m.leases && s.inflight[0 := 0] == m.inflight;
    assert ReleaseLocked(ONE_PLACE, s, 0) == m;
    Grants(m);
    assert Scan(ONE_PLACE, m, |m.ring|) == Scanned(GRANTED, true);
    assert Dispatch(ONE_PLACE, GRANTED) == GRANTED;
    assert Dispatch(ONE_PLACE, m) == GRANTED;
  }

  lemma RunThree(a: Event, b: Event, d: Event)
    ensures var s := Initial(ONE_PLACE);
      Run(ONE_PLACE, s, [a, b, d]) == Step(ONE_PLACE, Step(ONE_PLACE, Step(ONE_PLACE, s, a), b), d)
  {
    hide Step;
    var s1 := Step(ONE_PLACE, Initial(ONE_PLACE), a);
    var s2 := Step(ONE_PLACE, s1, b);
    assert [a, b, d][1..] == [b, d] && [b, d][1..] == [d] && [d][1..] == [];
    assert Run(ONE_PLACE, s2, [d]) == Run(ONE_PLACE, Step(ONE_PLACE, s2, d), []);
    assert Run(ONE_PLACE, s1, [b, d]) == Run(ONE_PLACE, s2, [d]);
  }

  /** A late timeout is reached in a state that has lost nothing, and loses a lease. */
  lemma LateTimeOutIsReachable()
    ensures var s := Run(ONE_PLACE, Initial(ONE_PLACE), [AcquireBy(0), AcquireBy(0), Release(0)]);
      LateTimeOut(s, TimeOut(0)) && NoneLost(s) && !NoneLost(Step(ONE_PLACE, s, TimeOut(0)))
  {
    hide Step, Good;
    RunThree(AcquireBy(0), AcquireBy(0), Release(0));
    Takes();
    Waits();
    Releases();
    InitialGood(ONE_PLACE);
    RunGood(ONE_PLACE, Initial(ONE_PLACE), [AcquireBy(0), AcquireBy(0), Release(0)]);
    LateTimeOutLoses(ONE_PLACE, GRANTED, TimeOut(0));
  }
}
