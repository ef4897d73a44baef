/** What each step of the batcher does to its tables, told without the functions the steps
    are made of, and the two facts about batches that follow: they keep the order of arrival,
    and a batch is flushed for its size exactly when it is full. */
module BatcherEffects {
  import opened Collections
  import opened Compatibility
  import opened BatcherModel
  import opened BatcherInvariant
  import opened BatcherSteps

  // ---------------------------------------------------------------- flushing a group

  /** From `s` to `r` the items `ids` are dispatched, in this order, in one new operation. */
  ghost predicate Flushed(s: State, r: State, ids: seq<nat>, reason: FlushReason) {
    && r.ops == s.ops + [Op(ids, reason, Created, false, None, 0)]
    && r.pending == s.pending - |ids| && r.inflight == s.inflight + 1
    && |r.items| == |s.items|
    && (forall p :: 0 <= p < |ids| ==>
          && ids[p] < |s.items|
          && r.items[ids[p]] == s.items[ids[p]].(state := Dispatched, place := At(|s.ops|, p)))
    && (forall i :: 0 <= i < |s.items| && i !in ids ==> r.items[i] == s.items[i])
  }

  lemma DetachFlushed(s: State, b: nat, reason: FlushReason)
    requires Inv(s) && b < |s.batches| && Collecting(s, b)
    ensures Flushed(s, Detach(s, b, reason), s.batches[b].members, reason)
  {
    hide CompatibilityKey, Counted, Flushes, Futures, Delivery, Compatible, Clocked, ClosedDown, Detach, AnyMember,
      WaitsSomewhere;
    DetachIs(s, b, reason);
    MembersPending(s, b);
    var ids := s.batches[b].members;
    forall p | 0 <= p < |ids| ensures
      && ids[p] < |s.items|
      && Detach(s, b, reason).items[ids[p]] == s.items[ids[p]].(state := Dispatched, place := At(|s.ops|, p))
    {
      assert WaitsIn(s, ids[p], b);
      UpdateAt(s.items, ids, AsDispatched(|s.ops|), p);
    }
  }

  /** The timer of a group in the map dispatches every member of the group in one new
      operation, each at its own position; the key is free again and nothing else changes. */
  lemma TimerFlushes(c: Config, s: State, b: nat)
    requires Good(c, s) && b < |s.batches| && s.now >= s.batches[b].armedAt + c.maxWait
    requires s.batches[b].key in s.groups && s.groups[s.batches[b].key] == b
    ensures var r := Step(c, s, Expire(b));
      && Flushed(s, r, s.batches[b].members, Timeout) && s.batches[b].members != []
      && r.groups == s.groups - {s.batches[b].key}
      && r.batches == s.batches[b := s.batches[b].(timer := Fired)]
      && r.now == s.now && r.closed == s.closed
  {
    hide CompatibilityKey, Groups, Waiting, Counted, Flushes, Futures, Delivery, Compatible, Clocked, ClosedDown,
      UpdateAll;
    DetachIs(s, b, Timeout);
    DetachFlushed(s, b, Timeout);
  }

  // ---------------------------------------------------------------- submitting

  /** The members that wait under a key. */
  function Queue(s: State, key: string): seq<nat>
    requires Shaped(s)
  {
    if key in s.groups then s.batches[s.groups[key]].members else []
  }

  lemma SubmitIs(c: Config, s: State, tenant: string, request: Request)
    requires Shaped(s) && !s.closed
    ensures var it := Item(tenant, request, s.now, Pending, Unresolved, Nowhere);
      var j := Joined(s, it); var b := TargetGroup(s, it);
      && b < |j.batches|
      && Submit(c, s, tenant, request) == if |j.batches[b].members| >= c.maxSize then Detach(j, b, Size) else j
  {
    hide CompatibilityKey, Detach;
  }

  /** An accepted submission is the last member of the group of its key. When that makes the
      group full, all of it is dispatched at once; otherwise the item waits, and the group has
      the timer that was armed when its first member came. */
  lemma SubmissionJoins(c: Config, s: State, tenant: string, request: Request)
    requires Good(c, s) && c.Accepted() && !s.closed
    requires request.Validated() && BatchingEligibility(request, true).Eligible?
    ensures var r := Step(c, s, SubmitBy(tenant, request)); var key := CompatibilityKey(tenant, request);
      var ids := Queue(s, key) + [|s.items|];
      var items := s.items + [Item(tenant, request, s.now, Pending, Unresolved, Nowhere)];
      && r.now == s.now && !r.closed
      && (|ids| == c.maxSize ==>
            && Flushed(s.(items := items, pending := s.pending + 1), r, ids, Size)
            && r.groups == s.groups - {key}
            && (key in s.groups ==>
                  var g := s.groups[key];
                  r.batches == s.batches[g := Group(key, ids, Disarmed, s.batches[g].armedAt)]))
      && (|ids| != c.maxSize ==>
            && |ids| < c.maxSize && r.items == items && r.ops == s.ops
            && r.pending == s.pending + 1 && r.inflight == s.inflight
            && (key in s.groups ==>
                  && r.groups == s.groups
                  && r.batches == s.batches[s.groups[key] := s.batches[s.groups[key]].(members := ids)])
            && (key !in s.groups ==>
                  && r.groups == s.groups[key := |s.batches|]
                  && r.batches == s.batches + [Group(key, ids, Armed, s.now)]))
  {
    hide CompatibilityKey, Waiting, Counted, Flushes, Futures, Delivery, Compatible, Clocked, ClosedDown,
      Joined, TargetGroup, UpdateAll, AnyMember, Flushed, Submit, Detach;
    var it := Item(tenant, request, s.now, Pending, Unresolved, Nowhere);
    assert it.Key() == CompatibilityKey(tenant, request);
    SubmitIs(c, s, tenant, request);
    JoinedIs(s, it);
    JoinedKeeps(s, it);
    var j, b := Joined(s, it), TargetGroup(s, it);
    if it.Key() in s.groups {
      CollectingGroup(s, b);
      GroupHasRoom(c, s, b);
    }
    assert j.batches[b].members == Queue(s, it.Key()) + [|s.items|];
    DetachIs(j, b, Size);
    DetachFlushed(j, b, Size);
    FlushedFrom(j, s.(items := s.items + [it], pending := s.pending + 1), Detach(j, b, Size), j.batches[b].members, Size);
  }

  lemma FlushedFrom(s: State, t: State, r: State, ids: seq<nat>, reason: FlushReason)
    requires Flushed(s, r, ids, reason)
    requires t.items == s.items && t.ops == s.ops && t.pending == s.pending && t.inflight == s.inflight
    ensures Flushed(t, r, ids, reason)
  {
  }

  // ---------------------------------------------------------------- backend calls

  /** The answer to an operation resolves each member that has not left, by its position: with
      its response if there is one for each member, else with the failure of the call. */
  lemma AnswerResolves(c: Config, s: State, o: nat, outcome: Outcome)
    requires Good(c, s) && o < |s.ops| && s.ops[o].phase.Running?
    ensures var r := Step(c, s, Answer(o, outcome)); var ids := s.ops[o].members;
      && r == s.(items := r.items, ops := s.ops[o := s.ops[o].(phase := Settled, outcome := Some(outcome))])
      && |r.items| == |s.items|
      && (forall i :: 0 <= i < |s.items| && i !in ids ==> r.items[i] == s.items[i])
      && forall p :: 0 <= p < |ids| ==>
        && ids[p] < |s.items|
        && var a, b := s.items[ids[p]], r.items[ids[p]];
        && (a.state.Cancelled? ==> b == a)
        && (!a.state.Cancelled? ==> b == a.(state := Completed, future := b.future))
        && (!a.state.Cancelled? && outcome.Returned? && |outcome.responses| == |ids| ==>
              b.future == Resolved(outcome.responses[p]))
        && (!a.state.Cancelled? && (outcome.Raised? || (outcome.Returned? && |outcome.responses| != |ids|)) ==>
              b.future == Failed(UpstreamFailure))
        && (!a.state.Cancelled? && outcome.Interrupted? ==> b.future == Failed(BatchingUnavailable))
  {
    hide Inv, CompatibilityKey, SettleOp;
    SettleIs(s, o, outcome);
  }

  lemma Starts(c: Config, s: State, o: nat)
    requires Good(c, s) && o < |s.ops| && s.ops[o].phase.Created?
    ensures Step(c, s, Start(o)) == s.(ops := s.ops[o := s.ops[o].(phase := Running, started := true)])
  {
    hide Inv;
  }

  lemma Finishes(c: Config, s: State, o: nat)
    requires Good(c, s) && o < |s.ops| && s.ops[o].phase.Settled?
    ensures Step(c, s, Finish(o))
         == s.(inflight := s.inflight - 1, ops := s.ops[o := s.ops[o].(phase := Finished, decrements := 1)])
  {
    FinishKeeps(s, o);
    hide Groups, Waiting, Counted, Flushes, Futures, Delivery, Compatible, Clocked, ClosedDown;
    OpLived(s, o);
  }

  /** The life of an operation: its task runs, gets an outcome and is counted down once, and
      then every member that has not left has the outcome at its position. */
  lemma OperationRuns(c: Config, s: State, o: nat, outcome: Outcome)
    requires Good(c, s) && c.Accepted() && o < |s.ops| && s.ops[o].phase.Created?
    ensures var r := Run(c, s, [Start(o), Answer(o, outcome), Finish(o)]); var ids := s.ops[o].members;
      && r.ops == s.ops[o := s.ops[o].(phase := Finished, started := true, outcome := Some(outcome), decrements := 1)]
      && r.inflight == s.inflight - 1 && r.groups == s.groups && r.batches == s.batches && r.pending == s.pending
      && |r.items| == |s.items|
      && (forall i :: 0 <= i < |s.items| && i !in ids ==> r.items[i] == s.items[i])
      && forall p :: 0 <= p < |ids| ==>
        && ids[p] < |s.items| && !r.items[ids[p]].future.Unresolved?
        && (s.items[ids[p]].state.Cancelled? ==> r.items[ids[p]] == s.items[ids[p]])
        && (!s.items[ids[p]].state.Cancelled? && outcome.Returned? && |outcome.responses| == |ids| ==>
              r.items[ids[p]].future == Resolved(outcome.responses[p]))
  {
    hide Inv, Step;
    RunThree(c, s, Start(o), Answer(o, outcome), Finish(o));
    var running := Step(c, s, Start(o));
    StepGood(c, s, Start(o));
    Starts(c, s, o);
    var settled := Step(c, running, Answer(o, outcome));
    StepGood(c, running, Answer(o, outcome));
    AnswerResolves(c, running, o, outcome);
    Finishes(c, settled, o);
    CancelledAreDone(s);
    OpenOperation(s, o);
  }

  lemma RunThree(c: Config, s: State, d: Event, e: Event, f: Event)
    requires Shaped(s)
    ensures Run(c, s, [d, e, f]) == Step(c, Step(c, Step(c, s, d), e), f)
  {
    hide Step, Shaped;
    assert [d, e, f][1..] == [e, f] && [e, f][1..] == [f] && [f][1..] == [];
    var m := Step(c, Step(c, s, d), e);
    assert Run(c, m, [f]) == Run(c, Step(c, m, f), []) == Step(c, m, f);
    assert Run(c, Step(c, s, d), [e, f]) == Run(c, m, [f]);
  }

  lemma OpenOperation(s: State, o: nat)
    requires Inv(s) && o < |s.ops| && s.ops[o].phase.Created?
    ensures s.ops[o].outcome.None? && s.ops[o].decrements == 0 && !s.ops[o].started
  {
    hide Groups, Waiting, Counted, Futures, Delivery, Compatible, Clocked, ClosedDown;
    OpLived(s, o);
  }

  lemma CancelledAreDone(s: State)
    requires Inv(s)
    ensures forall i :: 0 <= i < |s.items| && s.items[i].state.Cancelled? ==> s.items[i].future.Aborted?
  {
    hide CompatibilityKey, Groups, Waiting, Counted, Flushes, Delivery, Compatible, Clocked, ClosedDown;
  }

  // ---------------------------------------------------------------- leaving

  /** A caller that leaves marks its own item only, unless the item is done already. */
  lemma CancelMarks(c: Config, s: State, i: nat)
    requires Good(c, s) && i < |s.items|
    ensures var r := Step(c, s, CancelBy(i));
      && (s.items[i].future.Unresolved? ==> r.items == s.items[i := s.items[i].(state := Cancelled, future := Aborted)])
      && (!s.items[i].future.Unresolved? ==> r.items == s.items)
      && r.ops == s.ops && r.inflight == s.inflight
      && (!s.items[i].state.Pending? ==> r.groups == s.groups && r.batches == s.batches && r.pending == s.pending)
  {
    hide CompatibilityKey, Groups, Waiting, Counted, Flushes, Delivery, Compatible, Clocked, ClosedDown, Remove;
    assert s.items[i := s.items[i]] == s.items;
  }

  /** A pending item also leaves its group, where the others keep their order; the last one
      to leave takes the group out of the map and disarms its timer. */
  lemma CancelLeaves(c: Config, s: State, i: nat) returns (b: nat, q: nat)
    requires Good(c, s) && i < |s.items| && s.items[i].state.Pending?
    ensures s.items[i].Key() in s.groups && s.groups[s.items[i].Key()] == b < |s.batches|
    ensures q < |s.batches[b].members| && s.batches[b].members[q] == i
    ensures var r := Step(c, s, CancelBy(i)); var ids := s.batches[b].members;
      && r.pending == s.pending - 1
      && r.batches == s.batches[b := s.batches[b].(members := ids[..q] + ids[q + 1..],
           timer := if |ids| == 1 then Disarmed else Armed)]
      && r.groups == if |ids| == 1 then s.groups - {s.items[i].Key()} else s.groups
  {
    hide CompatibilityKey, Counted, Flushes, Futures, Delivery, Compatible, Clocked, ClosedDown, Withdraw, WaitsIn,
      NoDup;
    WithdrawIs(s, i);
    b := s.groups[s.items[i].Key()];
    var ids := s.batches[b].members;
    assert WaitsSomewhere(s, i);
    q := IndexOf(ids, i);
    CollectingGroup(s, b);
  }

  // ---------------------------------------------------------------- shutdown

  /** Shutdown fails every item that waits or whose operation has not started, disarms every
      timer, and ends the operations that have not started, counting each of them down once. */
  lemma ShutsDown(c: Config, s: State)
    requires Good(c, s) && !s.closed
    ensures var r := Step(c, s, Close);
      && r.closed && r.groups == map[] && r.pending == 0 && !r.fault
      && |r.items| == |s.items| && |r.ops| == |s.ops| && |r.batches| == |s.batches|
      && (forall b :: 0 <= b < |r.batches| ==> !r.batches[b].timer.Armed?)
      && (forall o :: 0 <= o < |s.ops| ==>
            r.ops[o] == if s.ops[o].phase.Created? then s.ops[o].(phase := Finished, decrements := 1) else s.ops[o])
      && (forall i :: 0 <= i < |s.items| ==>
            var a := s.items[i];
            var stuck := a.place.At? && a.place.op < |s.ops| && s.ops[a.place.op].phase.Created?;
            r.items[i] == if a.state.Pending? || (a.state.Dispatched? && stuck)
                          then a.(state := Completed, future := Failed(BatchingUnavailable)) else a)
  {
    hide CompatibilityKey, Waiting, Counted, Futures, Delivery, Compatible, Clocked, ClosedDown, ShutItem,
      Grouped, NeverStarted, Shutdown;
    ShutdownKeeps(c, s);
    ShutTables(s);
    forall o | 0 <= o < |s.ops| ensures Lived(s.ops[o]) {
      OpLived(s, o);
    }
    forall i | 0 <= i < |s.items| {
      ShutItems(s, i);
    }
    DispatchedPlaced(s);
  }

  lemma DispatchedPlaced(s: State)
    requires Inv(s)
    ensures forall i :: 0 <= i < |s.items| && s.items[i].state.Dispatched? ==> s.items[i].place.At?
  {
    hide CompatibilityKey, Groups, Waiting, Counted, Futures, Delivery, Compatible, Clocked, ClosedDown;
  }

  lemma ShutTables(s: State)
    requires Inv(s) && !s.closed
    ensures var r := Shutdown(s);
      && r.closed && r.groups == map[] && r.pending == 0 && !r.fault
      && |r.items| == |s.items| && |r.ops| == |s.ops| && |r.batches| == |s.batches|
      && (forall o :: 0 <= o < |s.ops| ==>
            var op := s.ops[o];
            r.ops[o] == if op.phase.Created? then op.(phase := Finished, decrements := op.decrements + 1) else op)
  {
    hide CompatibilityKey, Waiting, Counted, Futures, Delivery, Compatible, Clocked, ClosedDown, ShutItem,
      Grouped, NeverStarted, Collecting;
    ShutCounted(s);
  }

  // ---------------------------------------------------------------- causes

  lemma SubmitCause(c: Config, s: State, tenant: string, request: Request)
    requires Good(c, s) && c.Accepted()
    ensures var r := Step(c, s, SubmitBy(tenant, request));
      && |s.items| <= |r.items| && (forall i :: 0 <= i < |s.items| ==> r.items[i].future == s.items[i].future)
      && (r.ops == s.ops || (|r.ops| == |s.ops| + 1 && r.ops[|s.ops|].reason == Size
            && |r.ops[|s.ops|].members| == c.maxSize && r.ops[|s.ops|].members[c.maxSize - 1] == |s.items|))
  {
    hide Inv, CompatibilityKey, Open, Join, Detach;
    if !s.closed && request.Validated() && BatchingEligibility(request, true).Eligible? {
      SubmissionJoins(c, s, tenant, request);
      var ids := Queue(s, CompatibilityKey(tenant, request)) + [|s.items|];
      assert ids[|ids| - 1] == |s.items|;
      var items := s.items + [Item(tenant, request, s.now, Pending, Unresolved, Nowhere)];
      if |ids| == c.maxSize {
        FlushedFutures(s.(items := items, pending := s.pending + 1), Step(c, s, SubmitBy(tenant, request)), ids, Size);
      }
    }
  }

  lemma FlushedFutures(s: State, r: State, ids: seq<nat>, reason: FlushReason)
    requires Flushed(s, r, ids, reason)
    ensures |r.items| == |s.items| && forall i :: 0 <= i < |s.items| ==> r.items[i].future == s.items[i].future
  {
    forall i | 0 <= i < |s.items| ensures r.items[i].future == s.items[i].future {
      if i as nat in ids {
        var p :| 0 <= p < |ids| && ids[p] == i;
        assert r.items[ids[p]].future == s.items[ids[p]].future;
      }
    }
  }

  lemma ExpireCause(c: Config, s: State, b: nat)
    requires Good(c, s) && c.Accepted()
    ensures var r := Step(c, s, Expire(b));
      && |r.items| == |s.items| && (forall i :: 0 <= i < |s.items| ==> r.items[i].future == s.items[i].future)
      && (r.ops == s.ops || (|r.ops| == |s.ops| + 1 && r.ops[|s.ops|].reason == Timeout
            && b < |s.batches| && r.ops[|s.ops|].members == s.batches[b].members
            && s.now - s.batches[b].armedAt >= c.maxWait))
  {
    hide Inv, TimerExpired;
    if b < |s.batches| && s.now >= s.batches[b].armedAt + c.maxWait {
      if Collecting(s, b) {
        TimerFlushes(c, s, b);
        FlushedFutures(s, Step(c, s, Expire(b)), s.batches[b].members, Timeout);
      } else {
        StaleTimer(s, b);
      }
    }
  }

  lemma OthersCause(c: Config, s: State, e: Event)
    requires Good(c, s) && (e.Tick? || e.Start? || e.Finish?)
    ensures Step(c, s, e).items == s.items && |Step(c, s, e).ops| == |s.ops|
  {
    hide CompatibilityKey, Groups, Waiting, Counted, Flushes, Futures, Delivery, Compatible, Clocked, ClosedDown;
  }

  /** A new operation is the full group of the submission that filled it, or the group of a timer
      that has run for the maximum wait: nothing is flushed early. */
  lemma FlushCause(c: Config, s: State, e: Event)
    requires Good(c, s) && c.Accepted()
    ensures |s.ops| <= |Step(c, s, e).ops| <= |s.ops| + 1
    ensures |Step(c, s, e).ops| > |s.ops| ==>
      var op := Step(c, s, e).ops[|s.ops|];
      if op.reason == Size
      then e.SubmitBy? && |op.members| == c.maxSize && op.members[c.maxSize - 1] == |s.items|
      else e.Expire? && e.batch < |s.batches| && op.members == s.batches[e.batch].members
           && s.now - s.batches[e.batch].armedAt >= c.maxWait
  {
    hide Inv, CompatibilityKey, Submit, TimerExpired, SettleOp, FinishOp, CancelItem, Shutdown;
    match e
    case SubmitBy(tenant, request) => SubmitCause(c, s, tenant, request);
    case Expire(b) => ExpireCause(c, s, b);
    case Answer(o, outcome) => if o < |s.ops| && s.ops[o].phase.Running? { AnswerResolves(c, s, o, outcome); }
    case CancelBy(i) => if i < |s.items| { CancelMarks(c, s, i); }
    case Close => CloseCause(c, s);
    case _ => OthersCause(c, s, e);
  }

  lemma CloseCause(c: Config, s: State)
    requires Good(c, s)
    ensures var r := Step(c, s, Close);
      && |r.ops| == |s.ops| && |r.items| == |s.items|
      && forall i :: 0 <= i < |s.items| && r.items[i].future != s.items[i].future ==>
        s.items[i].future == Unresolved && r.items[i].future == Failed(BatchingUnavailable)
  {
    hide Inv, Shutdown;
    if !s.closed {
      ShutsDown(c, s);
      Unfinished(s);
    } else {
      ClosedAlready(c, s);
    }
  }

  lemma ClosedAlready(c: Config, s: State)
    requires Good(c, s) && s.closed
    ensures Step(c, s, Close) == s
  {
    hide Inv;
  }

  lemma Unfinished(s: State)
    requires Inv(s)
    ensures forall i :: 0 <= i < |s.items| && (s.items[i].state.Pending? || s.items[i].state.Dispatched?) ==>
      s.items[i].future == Unresolved
  {
    hide CompatibilityKey, Groups, Waiting, Counted, Flushes, Delivery, Compatible, Clocked, ClosedDown;
  }

  lemma AnswerCause(c: Config, s: State, o: nat, outcome: Outcome, i: nat)
    requires Good(c, s) && o < |s.ops| && s.ops[o].phase.Running? && i < |s.items|
    requires Step(c, s, Answer(o, outcome)).items[i].future != s.items[i].future
    ensures s.items[i].place.At? && s.items[i].place.op == o && s.items[i].place.position < |s.ops[o].members|
    ensures s.ops[o].members[s.items[i].place.position] == i
  {
    hide CompatibilityKey, Groups, Waiting, Counted, Futures, Delivery, Compatible, Clocked, ClosedDown, SettleOp;
    SettleItem(s, o, outcome, i);
    assert Placed(s, i, s.items[i].place.op, s.items[i].place.position);
  }

  /** A future is resolved by three causes only: the end of the call of its own operation, its own
      caller leaving, and shutdown. */
  lemma FutureCause(c: Config, s: State, e: Event, i: nat)
    requires Good(c, s) && c.Accepted() && i < |s.items|
    ensures i < |Step(c, s, e).items|
    ensures Step(c, s, e).items[i].future != s.items[i].future ==>
      && s.items[i].future == Unresolved
      && match e
         case Answer(o, _) =>
           && s.items[i].place.At? && s.items[i].place.op == o < |s.ops|
           && s.items[i].place.position < |s.ops[o].members| && s.ops[o].members[s.items[i].place.position] == i
         case CancelBy(j) => i == j && Step(c, s, e).items[i].future == Aborted
         case Close => Step(c, s, e).items[i].future == Failed(BatchingUnavailable)
         case _ => false
  {
    hide Inv, CompatibilityKey, Submit, TimerExpired, SettleOp, FinishOp, CancelItem, Shutdown;
    match e
    case SubmitBy(tenant, request) => SubmitCause(c, s, tenant, request);
    case Expire(b) => ExpireCause(c, s, b);
    case Answer(o, outcome) =>
      if o < |s.ops| && s.ops[o].phase.Running? {
        AnswerResolves(c, s, o, outcome);
        Unfinished(s);
        if Step(c, s, e).items[i].future != s.items[i].future {
          AnswerCause(c, s, o, outcome, i);
          SettleItem(s, o, outcome, i);
        }
      }
    case CancelBy(j) => if j < |s.items| { CancelMarks(c, s, j); }
    case Close => CloseCause(c, s);
    case _ => OthersCause(c, s, e);
  }

  // ---------------------------------------------------------------- batches over every run

  /** Groups and operations list their members in the order of their arrival; an operation was
      flushed for its size exactly if it is full. */
  ghost predicate Ordered(c: Config, s: State) {
    && (forall b :: 0 <= b < |s.batches| ==> Increasing(s.batches[b].members))
    && (forall o :: 0 <= o < |s.ops| ==> Increasing(s.ops[o].members))
    && (forall o :: 0 <= o < |s.ops| ==>
          (s.ops[o].reason.Size? <==> |s.ops[o].members| == c.maxSize) && |s.ops[o].members| <= c.maxSize)
  }

  lemma QueueOrdered(c: Config, s: State, key: string)
    requires Shaped(s) && Ordered(c, s)
    ensures Increasing(Queue(s, key) + [|s.items|])
  {
    var ids := Queue(s, key);
    assert forall j :: 0 <= j < |ids| ==> ids[j] < |s.items|;
  }

  lemma SubmitOrdered(c: Config, s: State, tenant: string, request: Request)
    requires Good(c, s) && c.Accepted() && Ordered(c, s) && Enabled(c, s, SubmitBy(tenant, request))
    ensures Ordered(c, Step(c, s, SubmitBy(tenant, request)))
  {
    hide Good, Inv, CompatibilityKey, Open, Join, Detach, Increasing;
    if !s.closed {
      SubmissionJoins(c, s, tenant, request);
      QueueOrdered(c, s, CompatibilityKey(tenant, request));
    }
  }

  lemma SettleOrdered(c: Config, s: State, e: Event)
    requires Good(c, s) && Ordered(c, s) && Enabled(c, s, e) && (e.Start? || e.Answer? || e.Finish? || e.Tick?)
    ensures Ordered(c, Step(c, s, e))
  {
    hide CompatibilityKey, Groups, Waiting, Counted, Flushes, Futures, Delivery, Compatible, Clocked, ClosedDown,
      UpdateAll, AnyMember, Increasing;
  }

  lemma CancelOrdered(c: Config, s: State, i: nat)
    requires Good(c, s) && Ordered(c, s) && i < |s.items|
    ensures Ordered(c, Step(c, s, CancelBy(i)))
  {
    hide Good, Inv, CancelItem;
    CancelMarks(c, s, i);
    if s.items[i].state.Pending? {
      var b, q := CancelLeaves(c, s, i);
      var ids := s.batches[b].members;
      assert Increasing(ids);
      assert Increasing(ids[..q] + ids[q + 1..]);
    }
  }

  lemma StepOrdered(c: Config, s: State, e: Event)
    requires Good(c, s) && c.Accepted() && Ordered(c, s)
    ensures Ordered(c, Step(c, s, e))
  {
    hide Good, Inv, CompatibilityKey, Submit, TimerExpired, SettleOp, FinishOp, CancelItem, Shutdown, Increasing;
    if Enabled(c, s, e) {
      match e
      case SubmitBy(tenant, request) => SubmitOrdered(c, s, tenant, request);
      case Expire(b) => ExpireOrdered(c, s, b);
      case CancelBy(i) => CancelOrdered(c, s, i);
      case Close => CloseOrdered(c, s);
      case _ => SettleOrdered(c, s, e);
    }
  }

  lemma ExpireOrdered(c: Config, s: State, b: nat)
    requires Good(c, s) && c.Accepted() && Ordered(c, s) && Enabled(c, s, Expire(b))
    ensures Ordered(c, Step(c, s, Expire(b)))
  {
    hide CompatibilityKey, Waiting, Counted, Flushes, Futures, Delivery, Compatible, Clocked, ClosedDown,
      TimerExpired, Increasing;
    if Collecting(s, b) {
      TimerFlushes(c, s, b);
      GroupHasRoom(c, s, b);
    } else {
      StaleTimer(s, b);
    }
  }

  lemma CloseOrdered(c: Config, s: State)
    requires Good(c, s) && Ordered(c, s)
    ensures Ordered(c, Step(c, s, Close))
  {
    hide CompatibilityKey, Groups, Waiting, Counted, Flushes, Futures, Delivery, Compatible, Clocked, ClosedDown,
      ShutItem, Increasing;
  }

  lemma {:induction false} RunOrdered(c: Config, s: State, es: seq<Event>)
    requires Good(c, s) && c.Accepted() && Ordered(c, s)
    ensures Good(c, Run(c, s, es)) && Ordered(c, Run(c, s, es))
    decreases |es|
  {
    hide Good, Inv, Step, Ordered;
    if es != [] {
      StepGood(c, s, es[0]);
      StepOrdered(c, s, es[0]);
      RunOrdered(c, Step(c, s, es[0]), es[1..]);
    }
  }

  /** In every run a batch has its members in the order in which they were submitted, it is
      never larger than the maximum, and its reason says whether it was full. */
  lemma BatchesInOrder(c: Config, es: seq<Event>, o: nat)
    requires c.Accepted() && o < |Run(c, INITIAL, es).ops|
    ensures var op := Run(c, INITIAL, es).ops[o];
      && (forall p, q :: 0 <= p < q < |op.members| ==> op.members[p] < op.members[q])
      && (op.reason == Size ==> |op.members| == c.maxSize)
      && (op.reason == Timeout ==> 0 < |op.members| < c.maxSize)
  {
    hide CompatibilityKey, Groups, Waiting, Counted, Flushes, Futures, Delivery, Compatible, Clocked, ClosedDown, Run;
    InitialGood(c);
    RunOrdered(c, INITIAL, es);
    OpLived(Run(c, INITIAL, es), o);
  }
}
