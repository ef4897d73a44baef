/** The dynamic batcher as a state machine over values: one step for each critical section
    of `gateway/batching/dynamic.py` and for each thing that happens to its tasks.

    Items, groups and flush operations are numbered in the order of their creation.
    `place`, `outcome` and `decrements` record history that the proofs speak about. */
module BatcherModel {
  import opened Collections
  import opened Json
  import opened Compatibility

  datatype Config = Config(maxSize: nat, maxWait: nat) {
    predicate Accepted() { 2 <= maxSize <= 64 && maxWait > 0 }
  }

  datatype ItemState = Pending | Dispatched | Completed | Cancelled
  datatype Error = BatchingUnavailable | UpstreamFailure

  datatype Future = Unresolved | Resolved(response: Data) | Failed(error: Error) | Aborted {
    predicate Done() { !Unresolved? }
  }

  /** The position of an item in the flush operation it was dispatched in. */
  datatype Place = Nowhere | At(op: nat, position: nat)

  datatype Item = Item(tenant: string, request: Request, submittedAt: int,
                       state: ItemState, future: Future, place: Place)
  {
    function Key(): string { CompatibilityKey(tenant, request) }
  }

  datatype Timer = Armed | Fired | Disarmed
  datatype Group = Group(key: string, members: seq<nat>, timer: Timer, armedAt: int)

  datatype FlushReason = Size | Timeout

  /** How a backend call ends. */
  datatype Outcome = Returned(responses: seq<Data>) | Raised | Interrupted

  datatype Phase = Created | Running | Settled | Finished
  datatype Op = Op(members: seq<nat>, reason: FlushReason, phase: Phase, started: bool,
                   outcome: Option<Outcome>, decrements: nat)

  datatype State = State(
    items: seq<Item>,
    batches: seq<Group>,           // every group ever created
    groups: map<string, nat>,      // the groups still collecting, by key
    ops: seq<Op>,
    pending: int,
    inflight: int,
    closed: bool,
    now: int,
    fault: bool)                   // a consistency error was raised

  const INITIAL := State([], [], map[], [], 0, 0, false, 0, false)

  predicate Shaped(s: State) {
    && (forall k :: k in s.groups ==> s.groups[k] < |s.batches|)
    && (forall b, i :: 0 <= b < |s.batches| && 0 <= i < |s.batches[b].members| ==>
          s.batches[b].members[i] < |s.items|)
    && (forall o, i :: 0 <= o < |s.ops| && 0 <= i < |s.ops[o].members| ==> s.ops[o].members[i] < |s.items|)
  }

  /** The group `b` is in the map. */
  predicate Collecting(s: State, b: nat) {
    b < |s.batches| && s.batches[b].key in s.groups && s.groups[s.batches[b].key] == b
  }

  /** `items` with every member of `ids` replaced by what `f` makes of it and its position. */
  function UpdateAll(items: seq<Item>, ids: seq<nat>, f: (Item, nat) -> Item): (r: seq<Item>)
    ensures |r| == |items|
  {
    seq(|items|, (i: nat) requires i < |items| => if i in ids then f(items[i], IndexOf(ids, i)) else items[i])
  }

  function AsDispatched(o: nat): (Item, nat) -> Item {
    (it: Item, p: nat) => it.(state := Dispatched, place := At(o, p))
  }

  /** `set_result` and `set_exception` behind the guard `if not item.future.done()`. */
  function Settle(it: Item, f: Future): Item {
    it.(state := Completed, future := if it.future.Done() then it.future else f)
  }

  function Delivered(responses: seq<Data>): (Item, nat) -> Item {
    (it: Item, p: nat) =>
      if it.state.Cancelled? || p >= |responses| then it else Settle(it, Resolved(responses[p]))
  }

  function FailedWith(e: Error): (Item, nat) -> Item {
    (it: Item, p: nat) => if it.state.Cancelled? then it else Settle(it, Failed(e))
  }

  /** Some member is in a state the code treats as inconsistent. */
  predicate AnyMember(items: seq<Item>, ids: seq<nat>, bad: Item -> bool)
    requires forall i :: 0 <= i < |ids| ==> ids[i] < |items|
  {
    exists i :: 0 <= i < |ids| && bad(items[ids[i]])
  }

  function NotPending(): Item -> bool { (it: Item) => !it.state.Pending? }
  function NotDispatched(): Item -> bool { (it: Item) => !it.state.Dispatched? && !it.state.Cancelled? }

  /** `_detach_locked`: a group that is no longer in the map is left alone. The timer is
      cancelled unless it is the timer itself that detaches, in which case it has fired. */
  function Detach(s: State, b: nat, reason: FlushReason): (r: State)
    requires Shaped(s)
    ensures Shaped(r) && |r.batches| == |s.batches|
  {
    if !Collecting(s, b) || s.batches[b].members == [] then s else
      var g := s.batches[b];
      if AnyMember(s.items, g.members, NotPending()) then s.(groups := s.groups - {g.key}, fault := true) else
        var timer := if reason.Timeout? then Fired else Disarmed;
        s.(groups := s.groups - {g.key},
           batches := s.batches[b := g.(timer := timer)],
           items := UpdateAll(s.items, g.members, AsDispatched(|s.ops|)),
           pending := s.pending - |g.members|,
           inflight := s.inflight + 1,
           ops := s.ops + [Op(g.members, reason, Created, false, None, 0)])
  }

  /** Add a new item to the group `b`. */
  function Join(s: State, b: nat, it: Item): (r: State)
    requires Shaped(s) && b < |s.batches|
    ensures Shaped(r) && b < |r.batches|
  {
    var g := s.batches[b];
    s.(items := s.items + [it],
       batches := s.batches[b := g.(members := g.members + [|s.items|])],
       pending := s.pending + 1)
  }

  function Open(s: State, key: string): (r: State)
    requires Shaped(s)
    ensures Shaped(r) && key in r.groups
  {
    if key in s.groups then s else
      s.(batches := s.batches + [Group(key, [], Armed, s.now)], groups := s.groups[key := |s.batches|])
  }

  function Submit(c: Config, s: State, tenant: string, request: Request): (r: State)
    requires Shaped(s)
    ensures Shaped(r)
  {
    if s.closed then s else
      var it := Item(tenant, request, s.now, Pending, Unresolved, Nowhere);
      var collecting := Open(s, it.Key());
      var b := collecting.groups[it.Key()];
      var joined := Join(collecting, b, it);
      if |joined.batches[b].members| >= c.maxSize then Detach(joined, b, Size) else joined
  }

  function TimerExpired(s: State, b: nat): (r: State)
    requires Shaped(s) && b < |s.batches|
    ensures Shaped(r)
  {
    var d := Detach(s, b, Timeout);
    var g := d.batches[b];
    d.(batches := d.batches[b := g.(timer := if g.timer.Armed? then Fired else g.timer)])
  }

  /** `_complete_success`, or one of the `_fail_items` branches. */
  function SettleOp(s: State, o: nat, outcome: Outcome): (r: State)
    requires Shaped(s) && o < |s.ops|
    ensures Shaped(r)
  {
    var op := s.ops[o];
    var done := op.(phase := Settled, outcome := Some(outcome));
    if AnyMember(s.items, op.members, NotDispatched()) then s.(fault := true) else
      var f :=
        if outcome.Returned? && |outcome.responses| == |op.members| then Delivered(outcome.responses)
        else FailedWith(if outcome.Interrupted? then BatchingUnavailable else UpstreamFailure);
      s.(items := UpdateAll(s.items, op.members, f), ops := s.ops[o := done])
  }

  /** The `finally` of `_execute_batch`. */
  function FinishOp(s: State, o: nat): (r: State)
    requires Shaped(s) && o < |s.ops|
    ensures Shaped(r)
  {
    if s.inflight <= 0 then s.(fault := true) else
      s.(inflight := s.inflight - 1,
         ops := s.ops[o := s.ops[o].(phase := Finished, decrements := s.ops[o].decrements + 1)])
  }

  function Withdraw(s: State, i: nat): (r: State)
    requires Shaped(s) && i < |s.items|
    ensures Shaped(r) && r.items == s.items
  {
    var key := s.items[i].Key();
    if key !in s.groups || i !in s.batches[s.groups[key]].members then s else
      var b := s.groups[key];
      var g := s.batches[b];
      var left := Remove(g.members, i);
      if left == []
      then s.(batches := s.batches[b := g.(members := left, timer := Disarmed)],
              groups := s.groups - {key}, pending := s.pending - 1)
      else s.(batches := s.batches[b := g.(members := left)], pending := s.pending - 1)
  }

  function Abort(it: Item): Item {
    it.(state := if it.state.Completed? then Completed else Cancelled,
        future := if it.future.Done() then it.future else Aborted)
  }

  function CancelItem(s: State, i: nat): (r: State)
    requires Shaped(s) && i < |s.items|
    ensures Shaped(r)
  {
    var w := if s.items[i].state.Pending? then Withdraw(s, i) else s;
    w.(items := w.items[i := Abort(w.items[i])])
  }

  // ---------------------------------------------------------------- shutdown

  predicate Grouped(s: State, i: nat) {
    exists b :: 0 <= b < |s.batches| && Collecting(s, b) && i in s.batches[b].members
  }

  predicate NeverStarted(s: State, i: nat) {
    exists o :: 0 <= o < |s.ops| && s.ops[o].phase.Created? && i in s.ops[o].members
  }

  /** What `shutdown` does to one item: fail it if it is waiting in a group or
      in a flush operation that has not started. */
  function ShutItem(s: State, i: nat): Item
    requires i < |s.items|
  {
    var it := s.items[i];
    if (it.state.Pending? && Grouped(s, i)) || (it.state.Dispatched? && NeverStarted(s, i))
    then Settle(it, Failed(BatchingUnavailable)) else it
  }

  function ShutOp(op: Op): Op {
    if op.phase.Created? then op.(phase := Finished, decrements := op.decrements + 1) else op
  }

  function IsPending(): Item -> int { (it: Item) => if it.state.Pending? then 1 else 0 }
  function IsCreated(): Op -> int { (op: Op) => if op.phase.Created? then 1 else 0 }
  function IsOpen(): Op -> int { (op: Op) => if op.phase.Finished? then 0 else 1 }

  function Shutdown(s: State): (r: State)
    requires Shaped(s)
    ensures Shaped(r)
  {
    if s.closed then s else
      var items := seq(|s.items|, (i: nat) requires i < |s.items| => ShutItem(s, i));
      var batches := seq(|s.batches|, (b: nat) requires b < |s.batches| =>
        if Collecting(s, b) then s.batches[b].(timer := Disarmed) else s.batches[b]);
      var created := Total(s.ops, IsCreated());
      s.(closed := true, items := items, batches := batches, groups := map[],
         ops := seq(|s.ops|, (o: nat) requires o < |s.ops| => ShutOp(s.ops[o])),
         pending := s.pending - (Total(s.items, IsPending()) - Total(items, IsPending())),
         inflight := s.inflight - created,
         fault := s.fault || s.inflight < created)
  }

  // ---------------------------------------------------------------- runs

  datatype Event =
    | SubmitBy(tenant: string, request: Request)
    | Tick(elapsed: nat)
    | Expire(batch: nat)
    | Start(op: nat)
    | Answer(op: nat, outcome: Outcome)
    | Finish(op: nat)
    | CancelBy(item: nat)
    | Close

  /** A timer task may run late and, being stale, even after it was cancelled; a flush task
      runs unless it was cancelled before its first step. Only eligible requests are submitted. */
  predicate Enabled(c: Config, s: State, e: Event) {
    match e
    case SubmitBy(_, request) => request.Validated() && BatchingEligibility(request, true).Eligible?
    case Tick(_) => true
    case Expire(b) => b < |s.batches| && s.now >= s.batches[b].armedAt + c.maxWait
    case Start(o) => o < |s.ops| && s.ops[o].phase.Created?
    case Answer(o, _) => o < |s.ops| && s.ops[o].phase.Running?
    case Finish(o) => o < |s.ops| && s.ops[o].phase.Settled?
    case CancelBy(i) => i < |s.items|
    case Close => true
  }

  function Step(c: Config, s: State, e: Event): (r: State)
    requires Shaped(s)
    ensures Shaped(r)
  {
    if !Enabled(c, s, e) then s else
      match e
      case SubmitBy(tenant, request) => Submit(c, s, tenant, request)
      case Tick(d) => s.(now := s.now + d)
      case Expire(b) => TimerExpired(s, b)
      case Start(o) => s.(ops := s.ops[o := s.ops[o].(phase := Running, started := true)])
      case Answer(o, outcome) => SettleOp(s, o, outcome)
      case Finish(o) => FinishOp(s, o)
      case CancelBy(i) => CancelItem(s, i)
      case Close => Shutdown(s)
  }

  function Run(c: Config, s: State, es: seq<Event>): (r: State)
    requires Shaped(s)
    ensures Shaped(r)
    decreases |es|
  {
    if es == [] then s else Run(c, Step(c, s, es[0]), es[1..])
  }
}
