/** Which backends are healthy, told from the events of a run alone. */
module RoutingHealth {
  import opened Collections
  import opened RoutingModel
  import opened RoutingSelection
  import opened RoutingInvariant
  import opened RoutingTheorems

  /** The event, happening in `s`, is a failure of backend `i`: a failed probe, or the end of a
      call or of an iteration of an operation on it with an exception that marks a backend. */
  predicate FailureOf(s: State, e: Event, i: nat)
    requires Shaped(s)
  {
    || e == Probed(i, false)
    || (e.CallEnded? && e.callEnd == HealthFailure && e.o < |s.ops| && s.leases[e.o].slot == i
        && s.ops[e.o].phase == Calling)
    || (e.IterationEnded? && e.iterationEnd == IterationHealthFailure && e.o < |s.ops| && s.leases[e.o].slot == i
        && s.ops[e.o].relay != NoRelay && s.ops[e.o].iteration == Iterating)
  }

  lemma SlotsStay(s: State, e: Event)
    requires Shaped(s)
    ensures |Step(s, e).slots| == |s.slots|
  {
    hide Chosen, CallReport, RelayReport, FinalOutcome, IterationResultOf, ResultAfterClose;
  }

  lemma SlotsFixed(s: State, e: Event)
    requires Inv(s) && !Step(s, e).closed && !e.Probed? && !e.CallEnded? && !e.IterationEnded?
    ensures |Step(s, e).slots| == |s.slots|
    ensures forall i :: 0 <= i < |s.slots| ==> Step(s, e).slots[i].health == s.slots[i].health
  {
    hide Accounted, Owned, Chosen, RelayReport, FinalOutcome, IterationResultOf, ResultAfterClose;
  }

  lemma StaysClosed(s: State, e: Event)
    requires Shaped(s) && s.closed
    ensures Step(s, e).closed
  {
    hide Chosen, CallReport, RelayReport, FinalOutcome, IterationResultOf, ResultAfterClose;
  }

  lemma ReleaseHealth(s: State, l: nat, i: nat)
    requires Shaped(s) && l < |s.leases| && i < |s.slots|
    ensures Release(s, l).slots[i].health == s.slots[i].health
  {
  }

  lemma CallHealth(s: State, o: nat, how: CallEnd, i: nat)
    requires Shaped(s) && i < |s.slots| && !s.closed && o < |s.ops|
    ensures i < |CallEnds(s, o, how).slots|
    ensures CallEnds(s, o, how).slots[i].health ==
      if how == HealthFailure && s.leases[o].slot == i then Unhealthy else s.slots[i].health
  {
    hide Release, CallReport;
    var marked := if how.HealthFailure? then SetHealth(s, s.leases[o].slot, false) else s;
    ReleaseHealth(marked, o, i);
  }

  lemma IterationHealth(s: State, o: nat, how: IterationEnd, i: nat)
    requires Shaped(s) && i < |s.slots| && !s.closed && o < |s.ops|
    ensures i < |IterationEnds(s, o, how).slots|
    ensures IterationEnds(s, o, how).slots[i].health ==
      if how == IterationHealthFailure && s.leases[o].slot == i then Unhealthy else s.slots[i].health
  {
    hide IterationOutcome, IterationResultOf;
  }

  /** A successful probe makes a backend healthy, a failure makes it unhealthy, and nothing
      else in an open pool changes its health. */
  lemma HealthStep(s: State, e: Event, i: nat)
    requires Inv(s) && i < |s.slots| && !Step(s, e).closed
    ensures i < |Step(s, e).slots|
    ensures e == Probed(i, true) ==> Step(s, e).slots[i].health == Healthy
    ensures FailureOf(s, e, i) ==> Step(s, e).slots[i].health == Unhealthy
    ensures e != Probed(i, true) && !FailureOf(s, e, i) ==> Step(s, e).slots[i].health == s.slots[i].health
  {
    hide Inv, Begin, StreamCloses, RelayCloses, IteratorStops, CallEnds, IterationEnds, Release, Finish;
    if s.closed {
      StaysClosed(s, e);
    } else if e.CallEnded? {
      if Enabled(s, e) { CallHealth(s, e.o, e.callEnd, i); }
    } else if e.IterationEnded? {
      if Enabled(s, e) { IterationHealth(s, e.o, e.iterationEnd, i); }
    } else if !e.Probed? {
      SlotsFixed(s, e);
    }
  }

  /** The last health event of backend `i` was the successful probe `es[k]`. */
  ghost predicate UpSince(n: nat, es: seq<Event>, i: nat, k: nat)
    requires n > 0
  {
    && k < |es| && es[k] == Probed(i, true)
    && forall j :: k < j < |es| ==> !FailureOf(Run(Initial(n), es[..j]), es[j], i)
  }

  /** Its last health event was the failure `es[k]`. */
  ghost predicate DownSince(n: nat, es: seq<Event>, i: nat, k: nat)
    requires n > 0
  {
    && k < |es| && FailureOf(Run(Initial(n), es[..k]), es[k], i)
    && forall j :: k < j < |es| ==> es[j] != Probed(i, true)
  }

  ghost predicate LastUp(n: nat, es: seq<Event>, i: nat)
    requires n > 0
  {
    exists k :: UpSince(n, es, i, k)
  }

  ghost predicate LastDown(n: nat, es: seq<Event>, i: nat)
    requires n > 0
  {
    exists k :: DownSince(n, es, i, k)
  }

  lemma LastGrows(n: nat, es: seq<Event>, e: Event, i: nat)
    requires n > 0
    ensures LastUp(n, es + [e], i) <==> e == Probed(i, true) || (LastUp(n, es, i) && !FailureOf(Run(Initial(n), es), e, i))
    ensures LastDown(n, es + [e], i) <==>
      FailureOf(Run(Initial(n), es), e, i) || (LastDown(n, es, i) && e != Probed(i, true))
  {
    hide Run, FailureOf;
    var t := es + [e];
    assert t[..|es|] == es && forall j :: 0 <= j < |es| ==> t[..j] == es[..j] && t[j] == es[j];
    FailureIsNoSuccess(Run(Initial(n), es), e, i);
    if e == Probed(i, true) { assert UpSince(n, t, i, |es|); }
    if FailureOf(Run(Initial(n), es), e, i) { assert DownSince(n, t, i, |es|); }
    if LastUp(n, es, i) && !FailureOf(Run(Initial(n), es), e, i) {
      var k :| UpSince(n, es, i, k);
      assert UpSince(n, t, i, k);
    }
    if LastDown(n, es, i) && e != Probed(i, true) {
      var k :| DownSince(n, es, i, k);
      assert DownSince(n, t, i, k);
    }
    if LastUp(n, t, i) && e != Probed(i, true) {
      var k :| UpSince(n, t, i, k);
      assert UpSince(n, es, i, k);
    }
    if LastDown(n, t, i) && !FailureOf(Run(Initial(n), es), e, i) {
      var k :| DownSince(n, t, i, k);
      assert DownSince(n, es, i, k);
    }
  }

  lemma FailureIsNoSuccess(s: State, e: Event, i: nat)
    requires Shaped(s)
    ensures e == Probed(i, true) ==> !FailureOf(s, e, i)
  {
  }

  /** While the pool is open, a backend is healthy exactly if the last health event on it was a
      successful probe, and unhealthy exactly if it was a failure. */
  lemma {:induction false} HealthFollowsEvents(n: nat, es: seq<Event>, i: nat)
    requires n > 0 && i < n && !Run(Initial(n), es).closed
    ensures |Run(Initial(n), es).slots| == n
    ensures Run(Initial(n), es).slots[i].health == Healthy <==> exists k :: UpSince(n, es, i, k)
    ensures Run(Initial(n), es).slots[i].health == Unhealthy <==> exists k :: DownSince(n, es, i, k)
    decreases |es|
  {
    hide Inv, Step, FailureOf, Run;
    InitialInv(n);
    if es == [] {
      NothingRan(n);
    } else {
      var m := |es| - 1;
      var s := Run(Initial(n), es[..m]);
      assert es == es[..m] + [es[m]];
      RunAppend(Initial(n), es[..m], es[m]);
      RunKeeps(Initial(n), es[..m]);
      if s.closed {
        StaysClosed(s, es[m]);
      }
      HealthFollowsEvents(n, es[..m], i);
      SlotsStay(s, es[m]);
      HealthStep(s, es[m], i);
      LastGrows(n, es[..m], es[m], i);
      FailureIsNoSuccess(s, es[m], i);
      assert LastUp(n, es, i) <==> exists k :: UpSince(n, es, i, k);
      assert LastDown(n, es, i) <==> exists k :: DownSince(n, es, i, k);
    }
  }

  lemma NothingRan(n: nat)
    requires n > 0
    ensures Run(Initial(n), []) == Initial(n)
  {
  }

  /** Hence a new operation gets a backend whose last health event was a successful probe:
      never one that failed since, and never one that was not probed. */
  lemma SelectedIsUp(n: nat, es: seq<Event>, kind: Kind)
    requires n > 0
    requires |Run(Initial(n), es + [Begins(kind)]).ops| > |Run(Initial(n), es).ops|
    ensures var r := Run(Initial(n), es + [Begins(kind)]); var i := r.leases[|r.leases| - 1].slot;
      i < n && exists k :: UpSince(n, es, i, k)
  {
    hide Run, Inv, UpSince;
    var s := Run(Initial(n), es);
    RunAppend(Initial(n), es, Begins(kind));
    InitialInv(n);
    RunKeeps(Initial(n), es);
    NewLease(s, kind);
    ChosenExactly(s.slots, s.cursor);
    var i := Chosen(s.slots, s.cursor).value;
    SlotsRun(Initial(n), es);
    HealthFollowsEvents(n, es, i);
  }

  lemma NewLease(s: State, kind: Kind)
    requires Shaped(s) && |Step(s, Begins(kind)).ops| > |s.ops|
    ensures !s.closed && Chosen(s.slots, s.cursor).Some? && Chosen(s.slots, s.cursor).value < |s.slots|
    ensures var r := Step(s, Begins(kind)); r.leases[|r.leases| - 1].slot == Chosen(s.slots, s.cursor).value
  {
  }

  lemma {:induction false} SlotsRun(s: State, es: seq<Event>)
    requires Shaped(s)
    ensures |Run(s, es).slots| == |s.slots|
    decreases |es|
  {
    hide Step;
    if es != [] {
      SlotsStay(s, es[0]);
      SlotsRun(Step(s, es[0]), es[1..]);
    }
  }
}
