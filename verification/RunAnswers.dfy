/** Which answer every slot of a phase ends with, told from the events of the run. */
module RunAnswers {
  import opened Collections
  import opened RunPhase

  /** A run up to its last step, and that step. */
  lemma {:induction false} LastStep(c: Phase, s: State, es: seq<Event>)
    requires Execution(c, s, es) && es != []
    ensures var m := |es| - 1;
      && Execution(c, s, es[..m]) && Enabled(c, Run(c, s, es[..m]), es[m])
      && Run(c, s, es) == Step(c, Run(c, s, es[..m]), es[m])
    decreases |es|
  {
    hide Step, Enabled;
    var m := |es| - 1;
    if m == 0 {
      assert es[..0] == [];
      assert Run(c, Step(c, s, es[0]), es[1..]) == Step(c, s, es[0]);
    } else {
      LastStep(c, Step(c, s, es[0]), es[1..]);
      assert es[..m][0] == es[0] && es[..m][1..] == es[1..][..m - 1] && es[1..][m - 1] == es[m];
    }
  }

  /** The event `es[k]` of a run is the client's response to job `i`, which the worker held. */
  ghost predicate RespondsTo(c: Phase, es: seq<Event>, k: nat, i: nat) {
    && k < |es| && es[k].Respond? && Execution(c, Initial(c), es[..k])
    && var s := Run(c, Initial(c), es[..k]);
    && es[k].w < |s.workers| && s.workers[es[k].w] == Requesting(i)
  }

  /** Every result for slot `i` that is somewhere on its way is `r`. */
  ghost predicate OnlyHolds(c: Phase, s: State, i: nat, r: Result)
    requires i < |s.ordered|
  {
    && (forall w :: 0 <= w < |s.workers| && s.workers[w].Sending? && Slot(c, s.workers[w].result) == i ==>
          s.workers[w].result == r)
    && (forall k :: 0 <= k < |s.results| && Slot(c, s.results[k]) == i ==> s.results[k] == r)
    && (s.ordered[i].Some? ==> s.ordered[i].value == r)
  }

  /** No result for slot `i` has been made yet. */
  ghost predicate HoldsNone(c: Phase, s: State, i: nat)
    requires i < |s.ordered|
  {
    && (forall w :: 0 <= w < |s.workers| && s.workers[w].Sending? ==> Slot(c, s.workers[w].result) != i)
    && (forall k :: 0 <= k < |s.results| ==> Slot(c, s.results[k]) != i)
    && s.ordered[i].None?
  }

  ghost predicate Requested(s: State, i: nat) {
    exists w :: 0 <= w < |s.workers| && s.workers[w] == Requesting(i)
  }

  /** A step that does not respond to job `i` keeps what is known of its result. */
  lemma ResultMoves(c: Phase, s: State, e: Event, i: nat, r: Result)
    requires Inv(c, s) && Enabled(c, s, e) && i < c.count
    requires !(e.Respond? && s.workers[e.w] == Requesting(i))
    ensures |Step(c, s, e).ordered| == |s.ordered| == c.count
    ensures OnlyHolds(c, s, i, r) ==> OnlyHolds(c, Step(c, s, e), i, r)
    ensures HoldsNone(c, s, i) ==> HoldsNone(c, Step(c, s, e), i)
    ensures Requested(Step(c, s, e), i) ==> Requested(s, i) || s.next == i
    ensures s.next <= Step(c, s, e).next
  {
    hide Places;
    if Requested(Step(c, s, e), i) && s.next != i {
      var w :| 0 <= w < |s.workers| && Step(c, s, e).workers[w] == Requesting(i);
      assert s.workers[w] == Requesting(i);
    }
  }

  /** The response to job `i` makes its only result, and nobody requests it any more. */
  lemma ResultMade(c: Phase, s: State, e: Event, i: nat)
    requires Inv(c, s) && Enabled(c, s, e) && i < c.count
    requires e.Respond? && s.workers[e.w] == Requesting(i) && HoldsNone(c, s, i)
    ensures |Step(c, s, e).ordered| == c.count
    ensures OnlyHolds(c, Step(c, s, e), i, Result(if c.warmup then -1 - i else i, e.answer))
    ensures !Requested(Step(c, s, e), i) && i < s.next == Step(c, s, e).next
  {
    var r := Step(c, s, e);
    assert Places(c, s, i) == 1;
    TotalNonNegative(s.results, InBuffer(c, i));
    forall w | 0 <= w < |s.workers| && w != e.w ensures s.workers[w] != Requesting(i) {
      if s.workers[w] == Requesting(i) {
        CountedTwice(s.workers, AtWorker(c, i), if w < e.w then w else e.w, if w < e.w then e.w else w);
      }
    }
  }

  /** After a run: either nobody has responded to job `i`, and there is no result for it, or
      exactly one event did, and then its answer is the only result. */
  ghost predicate Tracked(c: Phase, es: seq<Event>, s: State, i: nat)
    requires i < |s.ordered|
  {
    || ((forall k :: !RespondsTo(c, es, k, i)) && HoldsNone(c, s, i))
    || (i < s.next && !Requested(s, i) && exists k :: TrackedBy(c, es, s, i, k))
  }

  ghost predicate TrackedBy(c: Phase, es: seq<Event>, s: State, i: nat, k: nat)
    requires i < |s.ordered|
  {
    && RespondsTo(c, es, k, i) && (forall j :: RespondsTo(c, es, j, i) ==> j == k)
    && OnlyHolds(c, s, i, Result(if c.warmup then -1 - i else i, es[k].answer))
  }

  lemma RespondsBefore(c: Phase, es: seq<Event>, e: Event, k: nat, i: nat)
    ensures k < |es| ==> (RespondsTo(c, es + [e], k, i) <==> RespondsTo(c, es, k, i))
    ensures RespondsTo(c, es + [e], k, i) ==> k <= |es|
  {
    hide Run, Execution;
    if k < |es| {
      assert (es + [e])[..k] == es[..k] && (es + [e])[k] == es[k];
    }
  }

  lemma RespondsNow(c: Phase, es: seq<Event>, e: Event, i: nat)
    requires Execution(c, Initial(c), es) && Enabled(c, Run(c, Initial(c), es), e)
    ensures RespondsTo(c, es + [e], |es|, i) <==> e.Respond? && Run(c, Initial(c), es).workers[e.w] == Requesting(i)
  {
    hide Run, Execution;
    assert (es + [e])[..|es|] == es;
  }

  lemma TrackedStep(c: Phase, es: seq<Event>, e: Event, i: nat)
    requires c.Accepted() && Execution(c, Initial(c), es) && i < c.count
    requires Inv(c, Run(c, Initial(c), es)) && Enabled(c, Run(c, Initial(c), es), e)
    requires |Run(c, Initial(c), es).ordered| == c.count && Tracked(c, es, Run(c, Initial(c), es), i)
    ensures var r := Step(c, Run(c, Initial(c), es), e); |r.ordered| == c.count && Tracked(c, es + [e], r, i)
  {
    hide Inv, Run, Execution, Step, Enabled, OnlyHolds, HoldsNone, Requested, RespondsTo;
    var s, t := Run(c, Initial(c), es), es + [e];
    var r := Step(c, s, e);
    forall k ensures RespondsTo(c, t, k, i) <==> RespondsTo(c, es, k, i) || (k == |es| && RespondsTo(c, t, k, i)) {
      RespondsBefore(c, es, e, k, i);
      InRun(c, es, k, i);
    }
    RespondsNow(c, es, e, i);
    if RespondsTo(c, t, |es|, i) {
      IsRequested(c, s, e, i);
      ResultMade(c, s, e, i);
      assert t[|es|] == e;
      assert TrackedBy(c, t, r, i, |es|);
    } else if k: nat :| TrackedBy(c, es, s, i, k) {
      InRun(c, es, k, i);
      ResultMoves(c, s, e, i, Result(if c.warmup then -1 - i else i, es[k].answer));
      assert t[k] == es[k];
      assert TrackedBy(c, t, r, i, k);
    } else {
      ResultMoves(c, s, e, i, Result(0, 0));
    }
  }

  lemma InRun(c: Phase, es: seq<Event>, k: nat, i: nat)
    ensures RespondsTo(c, es, k, i) ==> k < |es| && es[k].Respond?
  {
    hide Run, Execution;
  }

  lemma IsRequested(c: Phase, s: State, e: Event, i: nat)
    requires Enabled(c, s, e) && e.Respond? && s.workers[e.w] == Requesting(i)
    ensures Requested(s, i)
  {
  }

  lemma {:induction false} RunTracks(c: Phase, es: seq<Event>, i: nat)
    requires c.Accepted() && Execution(c, Initial(c), es) && i < c.count
    ensures Inv(c, Run(c, Initial(c), es))
    ensures var s := Run(c, Initial(c), es); |s.ordered| == c.count && Tracked(c, es, s, i)
    decreases |es|
  {
    hide Inv, Step, Enabled, Tracked, Run;
    InitialInv(c);
    RunKeeps(c, Initial(c), es);
    if es == [] {
      NothingYet(c, i);
    } else {
      var m := |es| - 1;
      LastStep(c, Initial(c), es);
      RunTracks(c, es[..m], i);
      TrackedStep(c, es[..m], es[m], i);
      assert es[..m] + [es[m]] == es;
    }
  }

  lemma NothingYet(c: Phase, i: nat)
    requires c.Accepted() && i < c.count
    ensures Run(c, Initial(c), []) == Initial(c) && |Initial(c).ordered| == c.count && Tracked(c, [], Initial(c), i)
  {
  }

  /** In a phase that is over, slot `i` holds the answer of the client to job `i`: exactly one
      event of the run is a response to a worker that held this job, and the slot holds its answer
      under the sequence number of the job, negative in a warmup. */
  lemma EverySlotHoldsItsAnswer(c: Phase, es: seq<Event>, i: nat) returns (k: nat)
    requires c.Accepted() && Execution(c, Initial(c), es) && Run(c, Initial(c), es).done && i < c.count
    ensures RespondsTo(c, es, k, i) && forall j :: RespondsTo(c, es, j, i) ==> j == k
    ensures var s := Run(c, Initial(c), es);
      i < |s.ordered| && s.ordered[i] == Some(Result(if c.warmup then -1 - i else i, es[k].answer))
  {
    hide Inv, Run, Execution, RespondsTo, Slot;
    RunTracks(c, es, i);
    var s := Run(c, Initial(c), es);
    DoneIsComplete(c, s);
    assert s.ordered[i].Some?;
    k :| TrackedBy(c, es, s, i, k);
  }
}
