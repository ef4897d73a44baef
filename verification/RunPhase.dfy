/** The closed-loop phase of `benchmark/internal/runner/runner.go`: a producer, a pool of
    workers and a collector that meet on an unbuffered job channel and a buffered result
    channel, as a state machine of their blocking operations. */
module RunPhase {
  import opened Collections

  /** What a worker does: wait for a job, await the client, or send its result. */
  datatype Worker = Waiting | Requesting(job: nat) | Sending(result: Result) | Gone

  /** The sequence a result persists, and what the client made of the request. */
  datatype Result = Result(sequence: int, answer: nat)

  datatype Phase = Phase(concurrency: nat, count: nat, warmup: bool) {
    /** `New` and `Warmup` start no phase without requests or workers. */
    predicate Accepted() { concurrency > 0 && count > 0 }
    function Workers(): nat { if concurrency < count then concurrency else count }
    function Persisted(sequence: int): int { if warmup then -sequence - 1 else sequence }
  }

  datatype State = State(
    next: nat,                       // the job the producer sends next
    jobsClosed: bool,
    workers: seq<Worker>,
    results: seq<Result>,            // the buffer of the result channel
    resultsClosed: bool,
    ordered: seq<Option<Result>>,    // the slots of the collector
    done: bool)

  function Initial(c: Phase): State {
    State(0, false, seq(c.Workers(), _ => Waiting), [], false, seq(c.count, _ => None), false)
  }

  datatype Event =
    | HandOver(w: nat)               // the producer and a waiting worker meet on `jobs`
    | Respond(w: nat, answer: nat)   // the client returns
    | Send(w: nat)                   // a result enters the buffer
    | CloseJobs
    | Leave(w: nat)                  // a worker sees `jobs` closed
    | CloseResults                   // all workers have left
    | Collect                        // the collector takes a result and stores it in its slot
    | Finish                         // the collector sees `results` closed and drained

  /** When the goroutine concerned is not blocked. */
  predicate Enabled(c: Phase, s: State, e: Event) {
    match e
    case HandOver(w) => w < |s.workers| && s.workers[w].Waiting? && s.next < c.count
    case Respond(w, _) => w < |s.workers| && s.workers[w].Requesting?
    case Send(w) => w < |s.workers| && s.workers[w].Sending? && |s.results| < c.count
    case CloseJobs => s.next == c.count && !s.jobsClosed
    case Leave(w) => w < |s.workers| && s.workers[w].Waiting? && s.jobsClosed
    case CloseResults => s.jobsClosed && !s.resultsClosed && forall w :: 0 <= w < |s.workers| ==> s.workers[w].Gone?
    case Collect => s.results != []
    case Finish => s.results == [] && s.resultsClosed && !s.done
  }

  /** The slot of a result; storing outside the slice would panic. */
  function Slot(c: Phase, r: Result): int {
    if c.warmup then -r.sequence - 1 else r.sequence
  }

  function Step(c: Phase, s: State, e: Event): State
    requires Enabled(c, s, e)
  {
    match e
    case HandOver(w) => s.(next := s.next + 1, workers := s.workers[w := Requesting(s.next)])
    case Respond(w, answer) =>
      s.(workers := s.workers[w := Sending(Result(c.Persisted(s.workers[w].job), answer))])
    case Send(w) => s.(workers := s.workers[w := Waiting], results := s.results + [s.workers[w].result])
    case CloseJobs => s.(jobsClosed := true)
    case Leave(w) => s.(workers := s.workers[w := Gone])
    case CloseResults => s.(resultsClosed := true)
    case Collect =>
      var r := s.results[0];
      if 0 <= Slot(c, r) < |s.ordered|
      then s.(results := s.results[1..], ordered := s.ordered[Slot(c, r) := Some(r)])
      else s.(results := s.results[1..])
    case Finish => s.(done := true)
  }

  // ---------------------------------------------------------------- where every job is

  function AtWorker(c: Phase, i: nat): Worker -> int {
    (w: Worker) =>
      if (w.Requesting? && w.job == i) || (w.Sending? && Slot(c, w.result) == i) then 1 else 0
  }

  function InBuffer(c: Phase, i: nat): Result -> int {
    (r: Result) => if Slot(c, r) == i then 1 else 0
  }

  function Stored(s: State, i: nat): int {
    if i < |s.ordered| && s.ordered[i].Some? then 1 else 0
  }

  /** The number of places that hold job `i`. */
  function Places(c: Phase, s: State, i: nat): int {
    Total(s.workers, AtWorker(c, i)) + Total(s.results, InBuffer(c, i)) + Stored(s, i)
  }

  predicate InRange(c: Phase, r: Result) {
    0 <= Slot(c, r) < c.count
  }

  ghost predicate Inv(c: Phase, s: State) {
    && c.Accepted() && |s.workers| == c.Workers() && |s.ordered| == c.count && s.next <= c.count
    && (forall i: nat :: i < c.count ==> Places(c, s, i) == if i < s.next then 1 else 0)
    && (forall w :: 0 <= w < |s.workers| ==>
          && (s.workers[w].Requesting? ==> s.workers[w].job < s.next)
          && (s.workers[w].Sending? ==> InRange(c, s.workers[w].result))
          && (s.workers[w].Gone? ==> s.jobsClosed))
    && (forall k :: 0 <= k < |s.results| ==> InRange(c, s.results[k]))
    && (forall i :: 0 <= i < c.count && s.ordered[i].Some? ==> Slot(c, s.ordered[i].value) == i)
    && (s.jobsClosed ==> s.next == c.count)
    && (s.resultsClosed ==> forall w :: 0 <= w < |s.workers| ==> s.workers[w].Gone?)
    && (s.done ==> s.resultsClosed && s.results == [])
  }

  lemma InitialInv(c: Phase)
    requires c.Accepted()
    ensures Inv(c, Initial(c))
  {
    forall i: nat | i < c.count ensures Places(c, Initial(c), i) == 0 {
      TotalZero(Initial(c).workers, AtWorker(c, i));
    }
  }

  /** A step of worker `w` that changes only that worker, as far as job `i` is concerned. */
  lemma WorkerMoves(c: Phase, s: State, r: State, w: nat, i: nat)
    requires w < |s.workers| == |r.workers| && r.workers == s.workers[w := r.workers[w]]
    requires r.results == s.results && r.ordered == s.ordered
    ensures Places(c, r, i) == Places(c, s, i) - AtWorker(c, i)(s.workers[w]) + AtWorker(c, i)(r.workers[w])
  {
    TotalUpdate(s.workers, w, r.workers[w], AtWorker(c, i));
  }

  lemma SendMoves(c: Phase, s: State, w: nat, i: nat)
    requires Enabled(c, s, Send(w))
    ensures Places(c, Step(c, s, Send(w)), i) == Places(c, s, i)
  {
    TotalUpdate(s.workers, w, Waiting, AtWorker(c, i));
    TotalAppend(s.results, s.workers[w].result, InBuffer(c, i));
  }

  lemma CollectMoves(c: Phase, s: State, i: nat)
    requires Inv(c, s) && s.results != [] && i < c.count
    ensures Places(c, Step(c, s, Collect), i) == Places(c, s, i)
  {
    assert s.results == [s.results[0]] + s.results[1..];
    TotalConcat([s.results[0]], s.results[1..], InBuffer(c, i));
    TotalAppend([], s.results[0], InBuffer(c, i));
    SlotIsFree(c, s);
  }

  /** A step moves one job from one place to the next. */
  lemma PlacesKept(c: Phase, s: State, e: Event, i: nat)
    requires Inv(c, s) && Enabled(c, s, e) && i < c.count
    ensures Places(c, Step(c, s, e), i) == Places(c, s, i) + if e.HandOver? && s.next == i then 1 else 0
  {
    hide Inv, Total;
    match e
    case Send(w) => SendMoves(c, s, w, i);
    case Collect => CollectMoves(c, s, i);
    case HandOver(w) => WorkerMoves(c, s, Step(c, s, e), w, i);
    case Respond(w, _) => WorkerMoves(c, s, Step(c, s, e), w, i);
    case Leave(w) => WorkerMoves(c, s, Step(c, s, e), w, i);
    case _ =>
  }

  /** The result the collector takes next fits into a slot that is still empty. */
  lemma SlotIsFree(c: Phase, s: State)
    requires Inv(c, s) && s.results != []
    ensures InRange(c, s.results[0]) && s.ordered[Slot(c, s.results[0])].None?
  {
    var i: nat := Slot(c, s.results[0]);
    assert Places(c, s, i) <= 1;
    TotalBounds(s.results, InBuffer(c, i), 0);
    TotalNonNegative(s.workers, AtWorker(c, i));
  }

  lemma StepKeeps(c: Phase, s: State, e: Event)
    requires Inv(c, s) && Enabled(c, s, e)
    ensures Inv(c, Step(c, s, e))
  {
    hide Places;
    forall i: nat | i < c.count ensures Places(c, Step(c, s, e), i) == if i < Step(c, s, e).next then 1 else 0 {
      PlacesKept(c, s, e, i);
    }
  }

  // ---------------------------------------------------------------- every run

  /** A sequence of steps none of which is blocked. */
  ghost predicate Execution(c: Phase, s: State, es: seq<Event>)
    decreases |es|
  {
    es == [] || (Enabled(c, s, es[0]) && Execution(c, Step(c, s, es[0]), es[1..]))
  }

  function Run(c: Phase, s: State, es: seq<Event>): State
    requires Execution(c, s, es)
    decreases |es|
  {
    if es == [] then s else Run(c, Step(c, s, es[0]), es[1..])
  }

  function Remaining(): Worker -> int {
    (w: Worker) => match w
      case Waiting => 1
      case Requesting(_) => 4
      case Sending(_) => 3
      case Gone => 0
  }

  /** The number of steps still to come, the same in whatever order they come. */
  function StepsLeft(c: Phase, s: State): int {
    4 * (c.count - s.next) + Total(s.workers, Remaining()) + |s.results| +
    (if s.jobsClosed then 0 else 1) + (if s.resultsClosed then 0 else 1) + (if s.done then 0 else 1)
  }

  lemma StepIsOneStep(c: Phase, s: State, e: Event)
    requires Inv(c, s) && Enabled(c, s, e)
    ensures StepsLeft(c, Step(c, s, e)) == StepsLeft(c, s) - 1
  {
    hide Places;
    if e.HandOver? || e.Respond? || e.Send? || e.Leave? {
      TotalUpdate(s.workers, e.w, Step(c, s, e).workers[e.w], Remaining());
    }
  }

  lemma StepsNotNegative(c: Phase, s: State)
    requires Inv(c, s)
    ensures StepsLeft(c, s) >= 0
  {
    hide Places;
    TotalNonNegative(s.workers, Remaining());
  }

  lemma {:induction false} RunKeeps(c: Phase, s: State, es: seq<Event>)
    requires Inv(c, s) && Execution(c, s, es)
    ensures Inv(c, Run(c, s, es)) && StepsLeft(c, Run(c, s, es)) == StepsLeft(c, s) - |es|
    decreases |es|
  {
    hide Inv, Step, StepsLeft;
    if es != [] {
      StepKeeps(c, s, es[0]);
      StepIsOneStep(c, s, es[0]);
      RunKeeps(c, Step(c, s, es[0]), es[1..]);
    }
  }

  /** While the phase is not over, some goroutine can go on. */
  lemma NoDeadlock(c: Phase, s: State) returns (e: Event)
    requires Inv(c, s) && !s.done
    ensures Enabled(c, s, e)
  {
    hide Places;
    if s.results != [] {
      return Collect;
    }
    if s.resultsClosed {
      return Finish;
    }
    if w: nat :| w < |s.workers| && s.workers[w].Requesting? {
      return Respond(w, 0);
    }
    if w: nat :| w < |s.workers| && s.workers[w].Sending? {
      return Send(w);
    }
    if w: nat :| w < |s.workers| && s.workers[w].Waiting? {
      return if s.next < c.count then HandOver(w) else if s.jobsClosed then Leave(w) else CloseJobs;
    }
    assert s.workers[0].Gone?;
    return CloseResults;
  }

  /** A phase that is over has stored every result in its own slot. */
  lemma DoneIsComplete(c: Phase, s: State)
    requires Inv(c, s) && s.done
    ensures StepsLeft(c, s) == 0
    ensures forall i :: 0 <= i < c.count ==> s.ordered[i].Some? && s.ordered[i].value.sequence == c.Persisted(i)
  {
    assert s.workers[0].Gone?;
    forall i: nat | i < c.count ensures s.ordered[i].Some? {
      assert Places(c, s, i) == 1;
      TotalZero(s.workers, AtWorker(c, i));
    }
    TotalZero(s.workers, Remaining());
  }

  /** No run of a phase gets stuck or goes on for ever: a run that cannot be continued has
      taken exactly four steps for each request, one for each worker and three to close, and
      it has filled every slot with the result of its own request. */
  lemma EveryRunCompletes(c: Phase, es: seq<Event>)
    requires c.Accepted() && Execution(c, Initial(c), es)
    ensures |es| <= 4 * c.count + c.Workers() + 3
    ensures var s := Run(c, Initial(c), es);
      && |s.ordered| == c.count
      && ((forall e :: !Enabled(c, s, e)) <==> s.done)
      && (s.done <==> |es| == 4 * c.count + c.Workers() + 3)
      && (s.done ==> forall i :: 0 <= i < c.count ==>
            s.ordered[i].Some? && s.ordered[i].value.sequence == c.Persisted(i))
  {
    hide Inv, Step, Places, Execution, Run;
    InitialInv(c);
    RunKeeps(c, Initial(c), es);
    var s := Run(c, Initial(c), es);
    StepsAtFirst(c);
    StepsNotNegative(c, s);
    SlotsKept(c, s);
    if s.done {
      DoneIsComplete(c, s);
      forall e ensures !Enabled(c, s, e) {
        if Enabled(c, s, e) {
          StepIsOneStep(c, s, e);
          StepKeeps(c, s, e);
          StepsNotNegative(c, Step(c, s, e));
        }
      }
    } else {
      var e := NoDeadlock(c, s);
      StepIsOneStep(c, s, e);
      StepKeeps(c, s, e);
      StepsNotNegative(c, Step(c, s, e));
    }
  }

  lemma SlotsKept(c: Phase, s: State)
    requires Inv(c, s)
    ensures |s.ordered| == c.count
  {
  }

  lemma StepsAtFirst(c: Phase)
    ensures StepsLeft(c, Initial(c)) == 4 * c.count + c.Workers() + 3
  {
    AllWaiting(c.Workers());
  }

  lemma {:induction false} AllWaiting(n: nat)
    ensures Total(seq(n, _ => Waiting), Remaining()) == n
  {
    if n > 0 {
      AllWaiting(n - 1);
      assert seq(n, _ => Waiting)[..n - 1] == seq(n - 1, _ => Waiting);
    }
  }

  // ---------------------------------------------------------------- bounds

  lemma {:induction false} CountedTwice<T>(s: seq<T>, f: T -> int, j: nat, k: nat)
    requires forall i :: 0 <= i < |s| ==> f(s[i]) >= 0
    requires j < k < |s|
    ensures f(s[j]) >= 1 && f(s[k]) >= 1 ==> Total(s, f) >= 2
  {
    TotalConcat(s[..k], s[k..], f);
    assert s == s[..k] + s[k..];
    TotalBounds(s[..k], f, j);
    TotalBounds(s[k..], f, 0);
  }

  /** A worker with a result finds room in the buffer: sending never blocks. */
  lemma SendNeverBlocks(c: Phase, s: State, w: nat)
    requires Inv(c, s) && w < |s.workers| && s.workers[w].Sending?
    ensures Enabled(c, s, Send(w))
  {
    hide NoDup;
    var held: seq<nat> := seq(|s.results|, (k: nat) requires k < |s.results| => Slot(c, s.results[k]));
    var mine: nat := Slot(c, s.workers[w].result);
    forall j: nat, k: nat | j < k < |held| ensures held[j] != held[k] {
      HeldOnce(c, s, j, k);
    }
    forall j: nat | j < |held| ensures held[j] != mine {
      HeldApart(c, s, w, j);
    }
    AllDifferent(held, mine, c.count);
  }

  lemma AllDifferent(held: seq<nat>, mine: nat, n: nat)
    requires forall j, k :: 0 <= j < k < |held| ==> held[j] != held[k]
    requires forall j :: 0 <= j < |held| ==> held[j] != mine
    requires mine < n && forall j :: 0 <= j < |held| ==> held[j] < n
    ensures |held| < n
  {
    NoDupBound(held + [mine], n);
  }

  lemma HeldOnce(c: Phase, s: State, j: nat, k: nat)
    requires Inv(c, s) && j < k < |s.results|
    ensures Slot(c, s.results[j]) != Slot(c, s.results[k])
  {
    var i: nat := Slot(c, s.results[j]);
    assert Places(c, s, i) <= 1;
    CountedTwice(s.results, InBuffer(c, i), j, k);
    TotalNonNegative(s.workers, AtWorker(c, i));
  }

  lemma HeldApart(c: Phase, s: State, w: nat, j: nat)
    requires Inv(c, s) && w < |s.workers| && s.workers[w].Sending? && j < |s.results|
    ensures Slot(c, s.results[j]) != Slot(c, s.workers[w].result)
  {
    var i: nat := Slot(c, s.results[j]);
    assert Places(c, s, i) <= 1;
    TotalBounds(s.results, InBuffer(c, i), j);
    TotalBounds(s.workers, AtWorker(c, i), w);
  }

  function IsOutstanding(): Worker -> int {
    (w: Worker) => if w.Requesting? then 1 else 0
  }

  lemma {:induction false} TotalAtMost(s: seq<Worker>)
    ensures 0 <= Total(s, IsOutstanding()) <= |s|
  {
    if s != [] {
      TotalAtMost(s[..|s| - 1]);
    }
  }

  /** Closed loop: there are `min(concurrency, count)` workers, so at most as many requests are
      outstanding at any moment, and the buffer of the result channel never overflows. */
  lemma ClosedLoop(c: Phase, es: seq<Event>)
    requires c.Accepted() && Execution(c, Initial(c), es)
    ensures var s := Run(c, Initial(c), es);
      && |s.workers| == (if c.concurrency < c.count then c.concurrency else c.count)
      && Total(s.workers, IsOutstanding()) <= c.concurrency && Total(s.workers, IsOutstanding()) <= c.count
      && (forall w :: 0 <= w < |s.workers| && s.workers[w].Sending? ==> |s.results| < c.count)
  {
    hide Places, Execution, Run;
    InitialInv(c);
    RunKeeps(c, Initial(c), es);
    var s := Run(c, Initial(c), es);
    TotalAtMost(s.workers);
    forall w | 0 <= w < |s.workers| && s.workers[w].Sending? ensures |s.results| < c.count {
      SendNeverBlocks(c, s, w);
    }
  }

  // ---------------------------------------------------------------- the collector

  /** The collector's loop over what comes out of the result channel, `ordered` being written
      in place. `SlotIsFree` is why no two results share a slot. */
  method CollectOrdered(c: Phase, incoming: seq<Result>) returns (ordered: array<Option<Result>>)
    requires forall k :: 0 <= k < |incoming| ==> InRange(c, incoming[k])
    requires forall j, k :: 0 <= j < k < |incoming| ==> Slot(c, incoming[j]) != Slot(c, incoming[k])
    ensures ordered.Length == c.count
    ensures forall k :: 0 <= k < |incoming| ==> InRange(c, incoming[k]) && ordered[Slot(c, incoming[k])] == Some(incoming[k])
    ensures forall i :: 0 <= i < c.count && ordered[i].Some? ==> ordered[i].value in incoming
    ensures |incoming| == c.count ==> forall i :: 0 <= i < c.count ==> ordered[i].Some?
  {
    ordered := new Option<Result>[c.count](_ => None);
    for n := 0 to |incoming|
      invariant forall k :: 0 <= k < n ==> ordered[Slot(c, incoming[k])] == Some(incoming[k])
      invariant forall i :: 0 <= i < c.count && ordered[i].Some? ==> ordered[i].value in incoming
    {
      var index := incoming[n].sequence;
      if c.warmup {
        index := -index - 1;
      }
      ordered[index] := Some(incoming[n]);
    }
    if |incoming| == c.count {
      var slots: seq<nat> := seq(|incoming|, (k: nat) requires k < |incoming| => Slot(c, incoming[k]));
      NoDupFull(slots, c.count);
      forall i: nat | i < c.count ensures ordered[i].Some? {
        assert i in slots;
        var k :| 0 <= k < |slots| && slots[k] == i;
      }
    }
  }
}
