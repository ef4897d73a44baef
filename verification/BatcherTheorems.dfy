/** The promises of the batcher over every run from its construction. */
module BatcherTheorems {
  import opened Collections
  import opened Json
  import opened Compatibility
  import opened Demux
  import opened BatcherModel
  import opened BatcherInvariant
  import opened BatcherSteps
  import opened BatcherEffects

  /** Any interleaving of submissions, timers, flush steps, cancellations and shutdown. */
  ghost predicate Reachable(c: Config, s: State) {
    exists es: seq<Event> :: s == Run(c, INITIAL, es)
  }

  /** Master invariant: counters, groups, flush operations and futures agree in every
      reachable state, so no consistency error is ever raised. */
  lemma EveryReachableStateIsGood(c: Config, s: State)
    requires Reachable(c, s) && c.Accepted()
    ensures Good(c, s)
  {
    hide Good, Run;
    var es :| s == Run(c, INITIAL, es);
    InitialGood(c);
    RunGood(c, INITIAL, es);
  }

  // ---------------------------------------------------------------- delivery

  /** The requests of a flush operation, in batch order. */
  function Requests(s: State, o: nat): seq<Request>
    requires Shaped(s) && o < |s.ops|
  {
    seq(|s.ops[o].members|, (p: nat) requires p < |s.ops[o].members| => s.items[s.ops[o].members[p]].request)
  }

  /** Every flush operation is one tenant's, within the size limit, and passes the backend's check. */
  lemma FlushIsAccepted(c: Config, s: State, o: nat)
    requires Reachable(c, s) && c.Accepted() && Shaped(s) && o < |s.ops|
    ensures BackendAccepts(Requests(s, o)) && |Requests(s, o)| <= c.maxSize
    ensures forall p :: 0 <= p < |s.ops[o].members| ==>
      s.items[s.ops[o].members[p]].tenant == s.items[s.ops[o].members[0]].tenant
  {
    hide CompatibilityKey, Run, Groups, Waiting, Counted, Futures, Delivery, Clocked, ClosedDown, BackendAccepts;
    EveryReachableStateIsGood(c, s);
    var ids, rs := s.ops[o].members, Requests(s, o);
    var tenants := seq(|ids|, (p: nat) requires p < |ids| => s.items[ids[p]].tenant);
    OpLived(s, o);
    forall p | 0 <= p < |ids| ensures
      && rs[p].Validated() && BatchingEligibility(rs[p], true).Eligible?
      && CompatibilityKey(tenants[p], rs[p]) == CompatibilityKey(tenants[0], rs[0])
    {
      assert s.items[ids[p]].Key() == s.items[ids[0]].Key();
    }
    EligibleGroupIsAccepted(tenants, rs);
    forall p | 0 <= p < |ids| ensures s.items[ids[p]].tenant == s.items[ids[0]].tenant {
      assert tenants[p] == tenants[0];
    }
  }

  /** The responses of every successful call are a demultiplexing of what upstream answered to it. */
  ghost predicate Demultiplexed(s: State, upstream: map<nat, map<string, Data>>)
  {
    forall o :: 0 <= o < |s.ops| && s.ops[o].outcome.Some? && s.ops[o].outcome.value.Returned? ==>
      var n := |s.ops[o].outcome.value.responses|;
      o in upstream && Demultiplexable(upstream[o], n) && Answers(upstream[o], n, s.ops[o].outcome.value.responses)
  }

  /** End to end. A caller that gets a result gets, from the upstream answer to its own batch,
      the choice whose index is its position in that batch; and the batch request carries its
      own messages at that position. The order of the choices and the cancellation of other
      members play no part. */
  lemma EachCallerGetsItsOwnAnswer(c: Config, s: State, i: nat, upstream: map<nat, map<string, Data>>)
      returns (o: nat, p: nat, choice: Data)
    requires Reachable(c, s) && c.Accepted() && Shaped(s)
    requires Demultiplexed(s, upstream)
    requires i < |s.items| && s.items[i].future.Resolved?
    ensures o < |s.ops| && p < |s.ops[o].members| && s.ops[o].members[p] == i && o in upstream
    ensures "choices" in upstream[o] && upstream[o]["choices"].List? && choice in upstream[o]["choices"].items
    ensures choice.Dict? && "index" in choice.entries && choice.entries["index"] == Int(p)
    ensures s.items[i].future.response == MemberResponse(upstream[o], choice)
    ensures Requests(s, o) != [] && BatchPayload(Requests(s, o))[Messages].List?
    ensures p < |BatchPayload(Requests(s, o))[Messages].items|
    ensures BatchPayload(Requests(s, o))[Messages].items[p] == MessagesData(s.items[i].request.messages)
  {
    EveryReachableStateIsGood(c, s);
    o, p, choice := OwnAnswer(s, i, upstream);
    FlushIsAccepted(c, s, o);
    assert Requests(s, o)[p] == s.items[i].request;
  }

  lemma OwnAnswer(s: State, i: nat, upstream: map<nat, map<string, Data>>)
      returns (o: nat, p: nat, choice: Data)
    requires Inv(s) && Demultiplexed(s, upstream)
    requires i < |s.items| && s.items[i].future.Resolved?
    ensures o < |s.ops| && p < |s.ops[o].members| && s.ops[o].members[p] == i && o in upstream
    ensures "choices" in upstream[o] && upstream[o]["choices"].List? && choice in upstream[o]["choices"].items
    ensures choice.Dict? && "index" in choice.entries && choice.entries["index"] == Int(p)
    ensures s.items[i].future.response == MemberResponse(upstream[o], choice)
  {
    hide CompatibilityKey, Groups, Waiting, Counted, Futures, Compatible, Clocked, ClosedDown, MemberResponse;
    assert DeliveredOwn(s, i);
    o, p := s.items[i].place.op, s.items[i].place.position;
    assert Placed(s, i, o, p);
    var choices := upstream[o]["choices"].items;
    assert CarriedOnce(choices, p);
    var k := OnlyOwner(choices, p);
    assert HasIndex(choices[k], p);
    choice := choices[k];
  }

  /** What a step never revises: a done future, a place, an operation's members and outcome,
      the time a group's timer was armed; and a timer that was disarmed is never armed again. */
  ghost predicate Extends(s: State, r: State) {
    && |s.items| <= |r.items| && |s.batches| <= |r.batches| && |s.ops| <= |r.ops|
    && (forall i :: 0 <= i < |s.items| ==>
          && r.items[i].request == s.items[i].request && r.items[i].submittedAt == s.items[i].submittedAt
          && (s.items[i].future.Done() ==> r.items[i].future == s.items[i].future)
          && (s.items[i].place.At? ==> r.items[i].place == s.items[i].place))
    && (forall b :: 0 <= b < |s.batches| ==>
          && r.batches[b].key == s.batches[b].key && r.batches[b].armedAt == s.batches[b].armedAt
          && (r.batches[b].timer.Armed? ==> s.batches[b].timer.Armed?))
    && (forall o :: 0 <= o < |s.ops| ==>
          && r.ops[o].members == s.ops[o].members && s.ops[o].decrements <= r.ops[o].decrements <= 1
          && (s.ops[o].outcome.Some? ==> r.ops[o].outcome == s.ops[o].outcome))
  }

  lemma DetachExtends(s: State, b: nat, reason: FlushReason)
    requires Inv(s) && b < |s.batches|
    ensures Extends(s, Detach(s, b, reason))
  {
    hide CompatibilityKey, Counted, Futures, Delivery, Compatible, Clocked, ClosedDown, AnyMember;
    if Collecting(s, b) {
      DetachIs(s, b, reason);
      MembersPending(s, b);
      var ids := s.batches[b].members;
      forall i | 0 <= i < |s.items| && i in ids ensures s.items[i].place.Nowhere? && s.items[i].state.Pending? {
        var j :| 0 <= j < |ids| && ids[j] == i;
        assert WaitsIn(s, ids[j], b);
      }
    }
  }

  lemma JoinedExtends(s: State, it: Item)
    requires Inv(s)
    ensures Extends(s, Joined(s, it))
  {
    hide CompatibilityKey, Waiting, Counted, Futures, Delivery, Compatible, Clocked, ClosedDown, Joined, TargetGroup;
    JoinedIs(s, it);
  }

  lemma ExtendsTransitive(s: State, m: State, r: State)
    requires Extends(s, m) && Extends(m, r)
    ensures Extends(s, r)
  {
  }

  lemma SubmitExtends(c: Config, s: State, tenant: string, request: Request)
    requires Good(c, s) && c.Accepted()
    requires request.Validated() && BatchingEligibility(request, true).Eligible?
    ensures Extends(s, Submit(c, s, tenant, request))
  {
    hide Inv, CompatibilityKey, Open, Join, Detach, Extends;
    if !s.closed {
      var it := Item(tenant, request, s.now, Pending, Unresolved, Nowhere);
      JoinedKeeps(s, it);
      JoinedExtends(s, it);
      var r, b := Joined(s, it), TargetGroup(s, it);
      DetachExtends(r, b, Size);
      ExtendsTransitive(s, r, Detach(r, b, Size));
    } else {
      SameExtends(s);
    }
  }

  lemma SameExtends(s: State)
    requires Inv(s)
    ensures Extends(s, s)
  {
    hide CompatibilityKey, Groups, Waiting, Counted, Futures, Delivery, Compatible, Clocked, ClosedDown;
  }

  lemma SettleExtends(s: State, o: nat, outcome: Outcome)
    requires Inv(s) && o < |s.ops| && s.ops[o].phase.Running?
    ensures Extends(s, SettleOp(s, o, outcome))
  {
    hide CompatibilityKey, Groups, Waiting, Counted, Delivery, Compatible, Clocked, ClosedDown, SettleOp;
    SettleIs(s, o, outcome);
    forall i | 0 <= i < |s.items| ensures
      var a := s.items[i]; var b := SettleOp(s, o, outcome).items[i];
      b == a.(state := b.state, future := b.future) && (a.future.Done() ==> b.future == a.future)
    {
      SettleItem(s, o, outcome, i);
    }
  }

  lemma ShutExtends(s: State)
    requires Inv(s)
    ensures Extends(s, Shutdown(s))
  {
    hide CompatibilityKey, Groups, Waiting, Counted, Delivery, Compatible, Clocked, ClosedDown, ShutItem,
      Grouped, NeverStarted;
    if !s.closed {
      forall i | 0 <= i < |s.items| ensures
        var a := s.items[i]; var b := Shutdown(s).items[i];
        b == a.(state := b.state, future := b.future) && (a.future.Done() ==> b.future == a.future)
      {
        ShutItems(s, i);
      }
    }
  }

  /** No future is resolved twice, no operation is counted down twice, no timer is re-armed. */
  lemma StepExtends(c: Config, s: State, e: Event)
    requires Good(c, s) && c.Accepted()
    ensures Extends(s, Step(c, s, e))
  {
    hide Inv, CompatibilityKey, Submit, TimerExpired, SettleOp, FinishOp, CancelItem, Shutdown, Extends;
    SameExtends(s);
    if Enabled(c, s, e) {
      match e
      case SubmitBy(tenant, request) => SubmitExtends(c, s, tenant, request);
      case Tick(d) => OpStepExtends(c, s, e);
      case Expire(b) => ExpireExtends(s, b);
      case Start(o) => OpStepExtends(c, s, e);
      case Answer(o, outcome) => SettleExtends(s, o, outcome);
      case Finish(o) => OpStepExtends(c, s, e);
      case CancelBy(i) => CancelExtends(s, i);
      case Close => ShutExtends(s);
    }
  }

  lemma OpStepExtends(c: Config, s: State, e: Event)
    requires Inv(s) && (e.Tick? || e.Start? || e.Finish?)
    ensures Extends(s, Step(c, s, e))
  {
    hide CompatibilityKey, Groups, Waiting, Counted, Futures, Delivery, Compatible, Clocked, ClosedDown;
  }

  lemma ExpireExtends(s: State, b: nat)
    requires Inv(s) && b < |s.batches|
    ensures Extends(s, TimerExpired(s, b))
  {
    hide CompatibilityKey, Waiting, Counted, Futures, Delivery, Compatible, Clocked, ClosedDown, Detach, Flushes;
    DetachExtends(s, b, Timeout);
  }

  lemma CancelExtends(s: State, i: nat)
    requires Inv(s) && i < |s.items|
    ensures Extends(s, CancelItem(s, i))
  {
    hide CompatibilityKey, Waiting, Counted, Futures, Delivery, Compatible, Clocked, ClosedDown, Remove;
  }

  lemma {:induction false} RunExtends(c: Config, s: State, es: seq<Event>)
    requires Good(c, s) && c.Accepted()
    ensures Extends(s, Run(c, s, es))
    decreases |es|
  {
    hide Good, Inv, Step, Extends;
    SameExtends(s);
    if es != [] {
      var n := Step(c, s, es[0]);
      StepGood(c, s, es[0]);
      StepExtends(c, s, es[0]);
      RunExtends(c, n, es[1..]);
      ExtendsTransitive(s, n, Run(c, n, es[1..]));
    }
  }

  // ---------------------------------------------------------------- timers

  /** No armed timer is overdue. */
  ghost predicate Punctual(c: Config, s: State) {
    forall b :: 0 <= b < |s.batches| && s.batches[b].timer.Armed? ==> s.now <= s.batches[b].armedAt + c.maxWait
  }

  /** The clock passes no due timer: timers fire when due. */
  ghost predicate FiresWhenDue(c: Config, s: State, es: seq<Event>)
    requires Shaped(s)
    decreases |es|
  {
    es != [] ==>
      && (es[0].Tick? ==> Punctual(c, Step(c, s, es[0])))
      && FiresWhenDue(c, Step(c, s, es[0]), es[1..])
  }

  lemma StepPunctual(c: Config, s: State, e: Event)
    requires Good(c, s) && c.Accepted() && Punctual(c, s) && !e.Tick?
    ensures Punctual(c, Step(c, s, e))
  {
    hide Inv, CompatibilityKey, Submit, TimerExpired, SettleOp, FinishOp, CancelItem, Shutdown, Extends;
    StepExtends(c, s, e);
    if Enabled(c, s, e) {
      OldTimers(c, s, e);
    }
  }

  /** Only a submission creates a group, and it arms its timer now. */
  lemma OldTimers(c: Config, s: State, e: Event)
    requires Good(c, s) && c.Accepted() && !e.Tick? && Enabled(c, s, e)
    ensures var r := Step(c, s, e);
      && r.now == s.now && |s.batches| <= |r.batches|
      && (forall b :: 0 <= b < |s.batches| ==>
            r.batches[b].armedAt == s.batches[b].armedAt && (r.batches[b].timer.Armed? ==> s.batches[b].timer.Armed?))
      && (forall b :: |s.batches| <= b < |r.batches| ==> r.batches[b].armedAt == s.now)
  {
    hide Inv, CompatibilityKey, Submit, SettleOp, FinishOp, CancelItem, Shutdown, Detach, TimerExpired;
    StepExtends(c, s, e);
    match e
    case SubmitBy(tenant, request) => SubmitTimers(c, s, tenant, request);
    case Expire(b) => ExpireTimers(s, b);
    case Start(o) =>
    case Answer(o, outcome) => SettleBatches(s, o, outcome); SettleIs(s, o, outcome);
    case Finish(o) => FinishBatches(s, o); FinishNow(s, o);
    case CancelBy(i) => CancelItemIs(s, i); CancelTimers(s, i);
    case Close => ShutTimers(s);
  }

  lemma SubmitTimers(c: Config, s: State, tenant: string, request: Request)
    requires Good(c, s) && c.Accepted() && Enabled(c, s, SubmitBy(tenant, request))
    ensures var r := Submit(c, s, tenant, request);
      && r.now == s.now && |s.batches| <= |r.batches|
      && forall b :: |s.batches| <= b < |r.batches| ==> r.batches[b].armedAt == s.now
  {
    hide CompatibilityKey, Waiting, Counted, Flushes, Futures, Delivery, Compatible, Clocked, ClosedDown,
      UpdateAll, AnyMember;
    if !s.closed {
      JoinedIs(s, Item(tenant, request, s.now, Pending, Unresolved, Nowhere));
    }
  }

  lemma ExpireTimers(s: State, b: nat)
    requires Shaped(s) && b < |s.batches|
    ensures TimerExpired(s, b).now == s.now && |TimerExpired(s, b).batches| == |s.batches|
  {
    hide UpdateAll, AnyMember;
  }

  lemma FinishNow(s: State, o: nat)
    requires Shaped(s) && o < |s.ops|
    ensures FinishOp(s, o).now == s.now
  {
  }

  lemma CancelTimers(s: State, i: nat)
    requires Shaped(s) && i < |s.items|
    ensures |CancelItem(s, i).batches| == |s.batches|
  {
    hide CompatibilityKey;
  }

  lemma ShutTimers(s: State)
    requires Shaped(s)
    ensures Shutdown(s).now == s.now && |Shutdown(s).batches| == |s.batches|
  {
  }

  /** Nobody has been pending for longer than the maximum wait. */
  ghost predicate WaitsBounded(c: Config, s: State) {
    forall i :: 0 <= i < |s.items| && s.items[i].state.Pending? ==> s.now - s.items[i].submittedAt <= c.maxWait
  }

  /** If timers fire when due, no item stays pending longer than the maximum wait. */
  lemma {:induction false} BoundedBatchWait(c: Config, s: State, es: seq<Event>)
    requires Good(c, s) && c.Accepted() && Punctual(c, s) && FiresWhenDue(c, s, es)
    ensures WaitsBounded(c, Run(c, s, es))
    decreases |es|
  {
    hide Good, Inv, Step, Punctual, WaitsBounded;
    if es != [] {
      StepGood(c, s, es[0]);
      if !es[0].Tick? {
        StepPunctual(c, s, es[0]);
      }
      BoundedBatchWait(c, Step(c, s, es[0]), es[1..]);
    } else {
      PendingWait(c, s);
    }
  }

  lemma PendingWait(c: Config, s: State)
    requires Inv(s) && Punctual(c, s)
    ensures WaitsBounded(c, s)
  {
    hide CompatibilityKey, Counted, Flushes, Futures, Delivery, Compatible, Clocked, ClosedDown;
    forall i | 0 <= i < |s.items| && s.items[i].state.Pending? ensures s.now - s.items[i].submittedAt <= c.maxWait {
      assert WaitsSomewhere(s, i);
      var b := s.groups[s.items[i].Key()];
      assert Collecting(s, b);
      var ids := s.batches[b].members;
      var j :| 0 <= j < |ids| && ids[j] == i;
      assert WaitsIn(s, ids[j], b);
    }
  }

  function IsDue(now: int, maxWait: nat): Group -> int {
    (g: Group) => if g.timer.Armed? && now >= g.armedAt + maxWait then 1 else 0
  }

  /** And the clock is never stuck: from any state in which it was not late, the due timers can
      fire, one after the other. Then the clock may pass, and every item that has waited for the
      maximum wait has been dispatched in a new operation. */
  lemma {:induction false} DueTimersFire(c: Config, s: State) returns (es: seq<Event>)
    requires Good(c, s) && c.Accepted()
    ensures forall k :: 0 <= k < |es| ==> es[k].Expire?
    ensures FiresWhenDue(c, s, es + [Tick(1)])
    ensures var r := Run(c, s, es);
      && r.now == s.now && |r.items| == |s.items|
      && (forall i :: 0 <= i < |s.items| && !s.items[i].state.Pending? ==> r.items[i] == s.items[i])
      && (forall i :: 0 <= i < |s.items| && s.items[i].state.Pending? && r.items[i] != s.items[i] ==>
            r.items[i].state.Dispatched? && r.items[i].place.At? && r.items[i].place.op >= |s.ops|)
      && (forall i :: 0 <= i < |s.items| && s.items[i].state.Pending? && s.now - s.items[i].submittedAt >= c.maxWait ==>
            r.items[i] != s.items[i])
    decreases Total(s.batches, IsDue(s.now, c.maxWait))
  {
    hide Good, Inv, Step, Punctual;
    if b :| 0 <= b < |s.batches| && IsDue(s.now, c.maxWait)(s.batches[b]) == 1 {
      var m := Step(c, s, Expire(b));
      StepGood(c, s, Expire(b));
      DueTimer(c, s, b);
      var rest := DueTimersFire(c, m);
      es := [Expire(b)] + rest;
      assert es[1..] == rest && (es + [Tick(1)])[1..] == rest + [Tick(1)];
    } else {
      es := [];
      NothingDue(c, s);
      assert [Tick(1)][1..] == [];
    }
  }

  /** One due timer fires. */
  lemma DueTimer(c: Config, s: State, b: nat)
    requires Good(c, s) && c.Accepted() && b < |s.batches|
    requires s.batches[b].timer.Armed? && s.now >= s.batches[b].armedAt + c.maxWait
    ensures var r := Step(c, s, Expire(b));
      && r.now == s.now && |r.items| == |s.items| && |r.ops| == |s.ops| + 1
      && (forall i :: 0 <= i < |s.items| && !s.items[i].state.Pending? ==> r.items[i] == s.items[i])
      && (forall i :: 0 <= i < |s.items| && s.items[i].state.Pending? && r.items[i] != s.items[i] ==>
            r.items[i].state.Dispatched? && r.items[i].place.At? && r.items[i].place.op == |s.ops|)
      && 0 <= Total(r.batches, IsDue(s.now, c.maxWait)) < Total(s.batches, IsDue(s.now, c.maxWait))
  {
    hide CompatibilityKey, Counted, Flushes, Futures, Delivery, Compatible, Clocked, ClosedDown, TimerExpired,
      WaitsSomewhere;
    assert Collecting(s, b);
    TimerFlushes(c, s, b);
    MembersPending(s, b);
    var r := Step(c, s, Expire(b));
    TotalUpdate(s.batches, b, r.batches[b], IsDue(s.now, c.maxWait));
    TotalNonNegative(r.batches, IsDue(s.now, c.maxWait));
    forall i | 0 <= i < |s.items| && r.items[i] != s.items[i]
      ensures s.items[i].state.Pending? && r.items[i].state.Dispatched?
      ensures r.items[i].place.At? && r.items[i].place.op == |s.ops|
    {
      var ids := s.batches[b].members;
      assert i as nat in ids;
      var p :| 0 <= p < |ids| && ids[p] == i;
      assert WaitsIn(s, ids[p], b);
    }
  }

  lemma NothingDue(c: Config, s: State)
    requires Good(c, s) && c.Accepted()
    requires forall b :: 0 <= b < |s.batches| ==> IsDue(s.now, c.maxWait)(s.batches[b]) != 1
    ensures Punctual(c, Step(c, s, Tick(1)))
    ensures forall i :: 0 <= i < |s.items| && s.items[i].state.Pending? ==> s.now - s.items[i].submittedAt < c.maxWait
  {
    hide CompatibilityKey, Counted, Flushes, Futures, Delivery, Compatible, Clocked, ClosedDown;
    forall i | 0 <= i < |s.items| && s.items[i].state.Pending? ensures s.now - s.items[i].submittedAt < c.maxWait {
      assert WaitsSomewhere(s, i);
      var b := s.groups[s.items[i].Key()];
      assert Collecting(s, b);
      var ids := s.batches[b].members;
      var j :| 0 <= j < |ids| && ids[j] == i;
      assert WaitsIn(s, ids[j], b);
      assert IsDue(s.now, c.maxWait)(s.batches[b]) != 1;
    }
  }

  lemma {:induction false} RunConcat(c: Config, s: State, a: seq<Event>, b: seq<Event>)
    requires Shaped(s)
    ensures Run(c, s, a + b) == Run(c, Run(c, s, a), b)
    ensures FiresWhenDue(c, s, a + b) <==> FiresWhenDue(c, s, a) && FiresWhenDue(c, Run(c, s, a), b)
    decreases |a|
  {
    hide Step, Shaped, Punctual;
    if a == [] {
      assert a + b == b;
    } else {
      assert (a + b)[0] == a[0] && (a + b)[1..] == a[1..] + b;
      RunConcat(c, Step(c, s, a[0]), a[1..], b);
    }
  }

  /** One tick, and what it takes for the clock to pass. */
  lemma ClockTicks(c: Config, s: State)
    requires Shaped(s)
    ensures Step(c, s, Tick(1)) == s.(now := s.now + 1) == Run(c, s, [Tick(1)])
    ensures FiresWhenDue(c, s, [Tick(1)]) ==> Punctual(c, Step(c, s, Tick(1)))
  {
    hide Punctual;
    assert [Tick(1)][1..] == [];
  }

  /** Waiting is enough: whatever state a pending item is in, there is a run of nothing but timers
      that fire when due and of the clock, by the end of which it is dispatched, no later than the
      maximum wait after its submission. */
  lemma {:induction false} WaitingIsEnough(c: Config, s: State, i: nat) returns (es: seq<Event>)
    requires Good(c, s) && c.Accepted() && Punctual(c, s) && i < |s.items| && s.items[i].state.Pending?
    ensures forall k :: 0 <= k < |es| ==> es[k].Expire? || es[k] == Tick(1)
    ensures FiresWhenDue(c, s, es)
    ensures var r := Run(c, s, es);
      && i < |r.items| && r.items[i].state.Dispatched? && r.items[i].place.At? && r.items[i].place.op >= |s.ops|
      && r.now - s.items[i].submittedAt <= c.maxWait
    decreases c.maxWait - (s.now - s.items[i].submittedAt)
  {
    hide Good, Inv, Step, Run, FiresWhenDue, Punctual;
    PendingWait(c, s);
    var fires := DueTimersFire(c, s);
    var m := Run(c, s, fires);
    RunGood(c, s, fires);
    RunConcat(c, s, fires, [Tick(1)]);
    es := fires;
    if m.items[i] == s.items[i] {
      ClockTicks(c, m);
      StepGood(c, m, Tick(1));
      RunExtends(c, s, fires);
      var rest := WaitingIsEnough(c, Step(c, m, Tick(1)), i);
      RunConcat(c, s, fires + [Tick(1)], rest);
      es := fires + [Tick(1)] + rest;
    }
  }

  // ---------------------------------------------------------------- shutdown

  lemma NothingPending(s: State)
    requires Inv(s) && s.groups == map[]
    ensures forall i :: 0 <= i < |s.items| ==> !s.items[i].state.Pending?
  {
    hide CompatibilityKey, Groups, Counted, Flushes, Futures, Delivery, Compatible, Clocked, ClosedDown;
  }

  /** Once closed: nothing is pending, nothing new is accepted or flushed, and every unresolved
      item is dispatched in an operation whose backend call is still running. */
  lemma ClosedState(c: Config, s: State)
    requires Good(c, s) && s.closed
    ensures s.pending == 0 && s.groups == map[]
    ensures forall i :: 0 <= i < |s.items| && !s.items[i].future.Done() ==>
      s.items[i].place.At? && s.items[i].place.op < |s.ops| && s.ops[s.items[i].place.op].phase.Running?
  {
    hide CompatibilityKey, Counted, Delivery, Compatible, Clocked;
    NothingPending(s);
    ClosedPending(s);
    forall i | 0 <= i < |s.items| && !s.items[i].future.Done()
      ensures s.items[i].place.At? && s.items[i].place.op < |s.ops| && s.ops[s.items[i].place.op].phase.Running?
    {
      assert s.items[i].state.Dispatched?;
      assert Placed(s, i, s.items[i].place.op, s.items[i].place.position);
      assert Fits(s.items[i].state, s.ops[s.items[i].place.op].phase);
    }
  }

  lemma ClosedPending(s: State)
    requires Counted(s) && forall i :: 0 <= i < |s.items| ==> !s.items[i].state.Pending?
    ensures s.pending == 0
  {
    TotalZero(s.items, IsPending());
  }

  /** Nothing is accepted after shutdown, whatever happens. */
  lemma {:induction false} ClosedForGood(c: Config, s: State, es: seq<Event>)
    requires Good(c, s) && s.closed && c.Accepted()
    ensures var r := Run(c, s, es); r.closed && |r.items| == |s.items| && |r.ops| == |s.ops| && r.pending == 0
    decreases |es|
  {
    if es == [] {
      ClosedState(c, s);
    } else {
      hide Good, Inv, Step;
      StepGood(c, s, es[0]);
      ClosedStays(c, s, es[0]);
      ClosedForGood(c, Step(c, s, es[0]), es[1..]);
    }
  }

  lemma ClosedStays(c: Config, s: State, e: Event)
    requires Good(c, s) && s.closed
    ensures var r := Step(c, s, e); r.closed && |r.items| == |s.items| && |r.ops| == |s.ops|
  {
    hide CompatibilityKey, Groups, Waiting, Counted, Flushes, Futures, Delivery, Compatible, Clocked,
      UpdateAll, AnyMember;
  }

  ghost predicate AllFinished(s: State) {
    forall o :: 0 <= o < |s.ops| ==> s.ops[o].phase.Finished?
  }

  /** When the owned tasks have ended after a shutdown the snapshot is (0, 0), every caller has
      its outcome, and every operation ever flushed was counted down exactly once. */
  lemma DrainedIsEmpty(c: Config, s: State)
    requires Reachable(c, s) && c.Accepted() && s.closed && AllFinished(s)
    ensures s.pending == 0 && s.inflight == 0
    ensures forall i :: 0 <= i < |s.items| ==> s.items[i].future.Done()
    ensures forall o :: 0 <= o < |s.ops| ==> s.ops[o].decrements == 1
  {
    hide CompatibilityKey, Run, Groups, Waiting, Futures, Delivery, Compatible, Clocked, ClosedDown;
    EveryReachableStateIsGood(c, s);
    ClosedState(c, s);
    TotalZero(s.ops, IsOpen());
    forall o | 0 <= o < |s.ops| ensures s.ops[o].decrements == 1 {
      OpLived(s, o);
    }
  }

  /** And they can always end: from any state after shutdown the running calls, interrupted by
      their cancellation, finish one by one. */
  lemma {:induction false} Drains(c: Config, s: State) returns (es: seq<Event>)
    requires Good(c, s) && s.closed && c.Accepted()
    ensures AllFinished(Run(c, s, es)) && Run(c, s, es).closed
    ensures forall k :: 0 <= k < |es| ==> es[k].Finish? || (es[k].Answer? && es[k].outcome.Interrupted?)
    decreases Total(s.ops, Unfinished())
  {
    hide Good, Inv, Step;
    if AllFinished(s) {
      es := [];
    } else {
      var o :| 0 <= o < |s.ops| && !s.ops[o].phase.Finished?;
      var e := if s.ops[o].phase.Settled? then Finish(o) else Answer(o, Interrupted);
      StepGood(c, s, e);
      ClosedStays(c, s, e);
      DrainStep(c, s, o);
      var rest := Drains(c, Step(c, s, e));
      es := [e] + rest;
      assert es[1..] == rest;
    }
  }

  function Unfinished(): Op -> int {
    (op: Op) => if op.phase.Finished? then 0 else if op.phase.Settled? then 1 else 2
  }

  lemma DrainStep(c: Config, s: State, o: nat)
    requires Good(c, s) && s.closed && o < |s.ops| && !s.ops[o].phase.Finished?
    ensures var e := if s.ops[o].phase.Settled? then Finish(o) else Answer(o, Interrupted);
      0 <= Total(Step(c, s, e).ops, Unfinished()) < Total(s.ops, Unfinished())
  {
    hide CompatibilityKey, Groups, Waiting, Flushes, Futures, Delivery, Compatible, Clocked, SettleOp;
    var e := if s.ops[o].phase.Settled? then Finish(o) else Answer(o, Interrupted);
    var r := Step(c, s, e);
    if s.ops[o].phase.Running? {
      SettleIs(s, o, Interrupted);
    } else {
      OpensCounted(s, o);
    }
    TotalUpdate(s.ops, o, r.ops[o], Unfinished());
    TotalNonNegative(r.ops, Unfinished());
  }
}
