/** The admission controller as a state machine over values: one step for each
    critical section of `gateway/admission/controller.py`, and one for each thing
    the event loop does to a waiter between two critical sections.

    Tenants are numbered by their position in the configuration; any other number
    is a tenant the controller does not know. Waiters and leases are numbered in
    the order of their creation, so `leases` is also the log of all grants. */
module AdmissionModel {
  import opened Collections

  datatype TenantLimits = TenantLimits(maxInflight: nat, maxQueue: nat)

  datatype Config = Config(tenants: seq<TenantLimits>, globalMaxInflight: nat, globalMaxQueue: nat)

  /** A waiter's future. `Dead` is one that `asyncio.wait_for` cancelled. */
  datatype Future = Unresolved | Granted(lease: nat) | Unavailable | Dead {
    predicate Done() { !Unresolved? }
  }

  /** `awaited` holds until the waiter's own `acquire` call has returned or raised. */
  datatype Waiter = Waiter(tenant: nat, future: Future, awaited: bool)

  /** Who can still release a lease: the caller that received it, the `acquire`
      call whose future carries it, or nobody any more. */
  datatype Holder = Caller | Pending(waiter: nat) | Nobody

  datatype Lease = Lease(tenant: nat, released: bool, holder: Holder)

  datatype State = State(
    inflight: seq<int>,
    queues: seq<seq<nat>>,
    ring: seq<nat>,
    ringIds: set<nat>,
    globalInflight: int,
    globalQueued: int,
    closed: bool,
    waiters: seq<Waiter>,
    leases: seq<Lease>,
    fault: bool)          // a consistency error was raised

  datatype Outcome = Refused(reason: Refusal) | Admitted(lease: nat) | Queued(waiter: nat)
  datatype Refusal = AdmissionUnavailable | TenantQueueFull | GatewayQueueFull

  function Initial(c: Config): State {
    State(seq(|c.tenants|, _ => 0), seq(|c.tenants|, _ => []), [], {}, 0, 0, false, [], [], false)
  }

  /** Every number stored in the state names something that exists. */
  predicate Shaped(c: Config, s: State) {
    && |s.inflight| == |s.queues| == |c.tenants|
    && (forall i :: 0 <= i < |s.ring| ==> s.ring[i] < |c.tenants|)
    && (forall t, i :: 0 <= t < |s.queues| && 0 <= i < |s.queues[t]| ==> s.queues[t][i] < |s.waiters|)
    && (forall w :: 0 <= w < |s.waiters| ==> s.waiters[w].tenant < |c.tenants|)
    && (forall w :: 0 <= w < |s.waiters| && s.waiters[w].future.Granted? ==>
          s.waiters[w].future.lease < |s.leases|)
    && (forall l :: 0 <= l < |s.leases| ==> s.leases[l].tenant < |c.tenants|)
  }

  function CanAdmit(c: Config, s: State, t: nat): bool
    requires Shaped(c, s) && t < |c.tenants|
  {
    s.inflight[t] < c.tenants[t].maxInflight && s.globalInflight < c.globalMaxInflight
  }

  function Activate(s: State, t: nat): State {
    if t in s.ringIds then s else s.(ring := s.ring + [t], ringIds := s.ringIds + {t})
  }

  function Deactivate(s: State, t: nat): State {
    if t !in s.ringIds then s else s.(ring := Remove(s.ring, t), ringIds := s.ringIds - {t})
  }

  function Grant(c: Config, s: State, t: nat, holder: Holder): (r: State)
    requires Shaped(c, s) && t < |c.tenants|
    ensures Shaped(c, r)
  {
    if !CanAdmit(c, s, t) then s.(fault := true) else
      s.(inflight := s.inflight[t := s.inflight[t] + 1],
         globalInflight := s.globalInflight + 1,
         leases := s.leases + [Lease(t, false, holder)])
  }

  function PopHead(c: Config, s: State, t: nat): (r: State)
    requires Shaped(c, s) && t < |c.tenants| && s.queues[t] != []
    ensures Shaped(c, r)
  {
    s.(queues := s.queues[t := s.queues[t][1..]], globalQueued := s.globalQueued - 1)
  }

  /** Drop the waiters at the front whose future is already done. */
  function DiscardCompleted(c: Config, s: State, t: nat): (r: State)
    requires Shaped(c, s) && t < |c.tenants|
    ensures Shaped(c, r)
    ensures r == s.(queues := r.queues, globalQueued := r.globalQueued)
    decreases |s.queues[t]|
  {
    if s.queues[t] != [] && s.waiters[s.queues[t][0]].future.Done()
    then DiscardCompleted(c, PopHead(c, s, t), t)
    else s
  }

  /** Take the head waiter of `t` and put `t` back into the ring if more wait. */
  function NextTurn(c: Config, s: State, t: nat): (r: State)
    requires Shaped(c, s) && t < |c.tenants| && s.queues[t] != []
    ensures Shaped(c, r) && |r.ring| >= |s.ring| && r.leases == s.leases && r.waiters == s.waiters
  {
    var p := PopHead(c, s, t);
    if p.queues[t] != [] then Activate(p, t) else p
  }

  /** `future.set_result`: resolving a future that is already done is an error. */
  function Resolve(c: Config, s: State, w: nat, l: nat): (r: State)
    requires Shaped(c, s) && w < |s.waiters| && l < |s.leases|
    ensures Shaped(c, r)
  {
    if s.waiters[w].future.Done() then s.(fault := true)
    else s.(waiters := s.waiters[w := s.waiters[w].(future := Granted(l))])
  }

  function GrantHead(c: Config, s: State, t: nat): (r: State)
    requires Shaped(c, s) && t < |c.tenants| && s.queues[t] != []
    ensures Shaped(c, r) && |r.ring| >= |s.ring| && r.closed == s.closed && |r.waiters| == |s.waiters|
    ensures !r.fault ==> r.globalInflight == s.globalInflight + 1
  {
    var w := s.queues[t][0];
    var g := Grant(c, NextTurn(c, s, t), t, Pending(w));
    if g.fault then g else Resolve(c, g, w, |s.leases|)
  }

  datatype Scanned = Scanned(state: State, granted: bool)

  /** One candidate of the dispatch loop: the tenant at the head of the ring. */
  function Examine(c: Config, s: State): (r: Scanned)
    requires Shaped(c, s) && s.ring != []
    ensures Shaped(c, r.state) && |r.state.ring| >= |s.ring| - 1
    ensures r.state.closed == s.closed && |r.state.waiters| == |s.waiters|
    ensures !r.granted ==> r.state.globalInflight == s.globalInflight && r.state.leases == s.leases
    ensures r.granted && !r.state.fault ==> r.state.globalInflight == s.globalInflight + 1
  {
    var t := s.ring[0];
    Consider(c, DiscardCompleted(c, TakeHead(c, s), t), t)
  }

  function TakeHead(c: Config, s: State): (r: State)
    requires Shaped(c, s) && s.ring != []
    ensures Shaped(c, r)
  {
    s.(ring := s.ring[1..], ringIds := s.ringIds - {s.ring[0]})
  }

  /** The candidate `t`, taken from the ring, with the waiters at its front still live. */
  function Consider(c: Config, d: State, t: nat): (r: Scanned)
    requires Shaped(c, d) && t < |c.tenants|
    ensures Shaped(c, r.state) && |r.state.ring| >= |d.ring|
    ensures r.state.closed == d.closed && |r.state.waiters| == |d.waiters|
    ensures !r.granted ==> r.state.globalInflight == d.globalInflight && r.state.leases == d.leases
    ensures r.granted && !r.state.fault ==> r.state.globalInflight == d.globalInflight + 1
  {
    if d.queues[t] == [] then Scanned(d, false)
    else if d.inflight[t] >= c.tenants[t].maxInflight then Scanned(Activate(d, t), false)
    else Scanned(GrantHead(c, d, t), true)
  }

  /** Up to `n` candidates, stopping at the first grant. */
  function Scan(c: Config, s: State, n: nat): (r: Scanned)
    requires Shaped(c, s) && n <= |s.ring|
    ensures Shaped(c, r.state) && r.state.closed == s.closed && |r.state.waiters| == |s.waiters|
    ensures !r.granted ==> r.state.globalInflight == s.globalInflight && r.state.leases == s.leases
    ensures r.granted && !r.state.fault ==> r.state.globalInflight == s.globalInflight + 1
    decreases n
  {
    if n == 0 then Scanned(s, false) else
      var e := Examine(c, s);
      if e.granted then e else Scan(c, e.state, n - 1)
  }

  /** Pass after pass over the ring until one grants nothing. A raised error ends it. */
  function Dispatch(c: Config, s: State): (r: State)
    requires Shaped(c, s)
    ensures Shaped(c, r) && r.closed == s.closed && |r.waiters| == |s.waiters|
    decreases c.globalMaxInflight - s.globalInflight
  {
    if s.closed || s.globalInflight >= c.globalMaxInflight || s.ring == [] then s else
      var pass := Scan(c, s, |s.ring|);
      if pass.granted && !pass.state.fault then Dispatch(c, pass.state) else pass.state
  }

  function RemoveWaiter(c: Config, s: State, w: nat): (r: State)
    requires Shaped(c, s) && w < |s.waiters|
    ensures Shaped(c, r)
  {
    var t := s.waiters[w].tenant;
    if w !in s.queues[t] then s else
      var q := Remove(s.queues[t], w);
      var p := s.(queues := s.queues[t := q], globalQueued := s.globalQueued - 1);
      if q == [] then Deactivate(p, t) else p
  }

  function ReleaseLocked(c: Config, s: State, l: nat): (r: State)
    requires Shaped(c, s) && l < |s.leases|
    ensures Shaped(c, r)
  {
    var t := s.leases[l].tenant;
    if s.leases[l].released then s
    else if s.inflight[t] <= 0 || s.globalInflight <= 0 then s.(fault := true)
    else s.(leases := s.leases[l := s.leases[l].(released := true)],
            inflight := s.inflight[t := s.inflight[t] - 1],
            globalInflight := s.globalInflight - 1)
  }

  /** The `acquire` call of `w` is over; its lease, if any, is now held by `holder`. */
  function Leave(c: Config, s: State, w: nat, holder: Holder): (r: State)
    requires Shaped(c, s) && w < |s.waiters|
    ensures Shaped(c, r)
  {
    var f := s.waiters[w].future;
    s.(waiters := s.waiters[w := s.waiters[w].(awaited := false)],
       leases := if f.Granted? then s.leases[f.lease := s.leases[f.lease].(holder := holder)] else s.leases)
  }

  function Enqueue(c: Config, s: State, t: nat): (r: State)
    requires Shaped(c, s) && t < |c.tenants|
    ensures Shaped(c, r)
  {
    var w := |s.waiters|;
    Activate(s.(waiters := s.waiters + [Waiter(t, Unresolved, true)],
                queues := s.queues[t := s.queues[t] + [w]],
                globalQueued := s.globalQueued + 1), t)
  }

  datatype Acquired = Acquired(state: State, outcome: Outcome)

  function Acquire(c: Config, s: State, t: nat): (r: Acquired)
    requires Shaped(c, s)
    ensures Shaped(c, r.state)
  {
    if s.closed || t >= |c.tenants| then Acquired(s, Refused(AdmissionUnavailable)) else
      var d := Dispatch(c, s);
      if d.queues[t] == [] && CanAdmit(c, d, t)
      then Acquired(Grant(c, d, t, Caller), Admitted(|d.leases|))
      else if |d.queues[t]| >= c.tenants[t].maxQueue then Acquired(d, Refused(TenantQueueFull))
      else if d.globalQueued >= c.globalMaxQueue then Acquired(d, Refused(GatewayQueueFull))
      else Acquired(Dispatch(c, Enqueue(c, d, t)), Queued(|d.waiters|))
  }

  /** The `except asyncio.CancelledError` section: unlike a timeout it gives back a
      lease that arrived in the future before the cancellation did. */
  function CancelWaiter(c: Config, s: State, w: nat): (r: State)
    requires Shaped(c, s) && w < |s.waiters|
    ensures Shaped(c, r)
  {
    var removed := w in s.queues[s.waiters[w].tenant];
    var p := RemoveWaiter(c, s, w);
    var f := p.waiters[w].future;
    var q := Leave(c, p, w, Nobody);
    Dispatch(c, if !removed && f.Granted? then ReleaseLocked(c, q, f.lease) else q)
  }

  predicate InSomeQueue(queues: seq<seq<nat>>, w: nat) {
    exists t :: 0 <= t < |queues| && w in queues[t]
  }

  function Shutdown(c: Config, s: State): (r: State)
    requires Shaped(c, s)
    ensures Shaped(c, r)
  {
    if s.closed then s else
      var waiters := seq(|s.waiters|, (w: nat) requires w < |s.waiters| =>
        if InSomeQueue(s.queues, w) && !s.waiters[w].future.Done()
        then s.waiters[w].(future := Unavailable) else s.waiters[w]);
      var queued := s.globalQueued - Total(s.queues, Length());
      s.(closed := true, waiters := waiters, queues := seq(|s.queues|, _ => []),
         ring := [], ringIds := {}, globalQueued := queued, fault := s.fault || queued != 0)
  }

  function Length<T>(): seq<T> -> int { (q: seq<T>) => |q| }
  function Itself(): int -> int { (n: int) => n }
  function Unreleased(t: nat): Lease -> int {
    (l: Lease) => if l.tenant == t && !l.released then 1 else 0
  }

  /** What can happen next. `Kill`, `Deliver`, `TimeOut` and `Cancel` are the four things
      `asyncio.wait_for` does with a waiter: it cancels the future, returns its result,
      or raises one of two exceptions once the future is done. */
  datatype Event =
    | AcquireBy(tenant: nat)
    | Kill(waiter: nat)
    | Deliver(waiter: nat)
    | TimeOut(waiter: nat)
    | Cancel(waiter: nat)
    | Release(lease: nat)
    | Close

  predicate Enabled(s: State, e: Event) {
    match e
    case AcquireBy(_) => true
    case Kill(w) => w < |s.waiters| && s.waiters[w].awaited && !s.waiters[w].future.Done()
    case Deliver(w) =>
      w < |s.waiters| && s.waiters[w].awaited && (s.waiters[w].future.Granted? || s.waiters[w].future.Unavailable?)
    case TimeOut(w) => w < |s.waiters| && s.waiters[w].awaited && s.waiters[w].future.Done()
    case Cancel(w) => w < |s.waiters| && s.waiters[w].awaited && s.waiters[w].future.Done()
    case Release(l) => l < |s.leases| && s.leases[l].holder.Caller?
    case Close => true
  }

  /** One step; an event that cannot happen leaves the state alone. */
  function Step(c: Config, s: State, e: Event): (r: State)
    requires Shaped(c, s)
    ensures Shaped(c, r)
  {
    if !Enabled(s, e) then s else
      match e
      case AcquireBy(t) => Acquire(c, s, t).state
      case Kill(w) => s.(waiters := s.waiters[w := s.waiters[w].(future := Dead)])
      case Deliver(w) => Leave(c, s, w, Caller)
      case TimeOut(w) => Dispatch(c, Leave(c, RemoveWaiter(c, s, w), w, Nobody))
      case Cancel(w) => CancelWaiter(c, s, w)
      case Release(l) => Dispatch(c, ReleaseLocked(c, s, l))
      case Close => Shutdown(c, s)
  }

  function Run(c: Config, s: State, es: seq<Event>): (r: State)
    requires Shaped(c, s)
    ensures Shaped(c, r)
    decreases |es|
  {
    if es == [] then s else Run(c, Step(c, s, es[0]), es[1..])
  }
}
