# A verified model of the inference gateway

This project models the parts of the gateway whose correctness depends on the order in
which things happen, together with the parsing, demultiplexing and benchmark code they
rely on, and proves what they promise over every run.

- **Admission** (`gateway/admission/controller.py`): bounded per-tenant and global
  admission, FIFO queues, a round-robin ring of waiting tenants, leases, late timeouts,
  cancellation and shutdown. Every counter is the total it stands for; no step leaves
  work undone that could be admitted; a tenant that waits below its own cap is overtaken at
  most once by any other tenant and is granted within a bounded number of returned places.
- **Batching** (`gateway/batching/dynamic.py`): size-or-timeout groups, timers, flush
  operations, cancellation before and after dispatch, shutdown. Together with the
  compatibility key (`gateway/schemas/chat.py`, `gateway/batching/eligibility.py`) and the
  index demultiplexer (`gateway/backends/vllm.py`) this yields the end-to-end theorem:
  a caller that gets a result gets the upstream choice that carries the number of its own
  position under `"index"`. Nothing is flushed early, and due timers always get through.
- **Streaming metrics** (`gateway/observability/sse.py`): the incremental bounded parser
  of server-sent events (a subset of section 9.2 of the WHATWG HTML Living Standard: only
  LF and CRLF boundaries). Its verdict does not depend on how the bytes are cut, and is told
  for a whole stream from its bytes: events, data, first content, usage, what disables it.
- **Routing and relaying** (`gateway/routing/pool.py`, `gateway/streaming/relay.py`):
  least-inflight selection with a rotating cursor, leases, routed streams, closing the
  pool, and the relay that owns a routed stream together with an admission lease. Which
  backends are healthy, and so can be selected, follows from the events of the run.
- **Benchmark** (`benchmark/`): counter deltas, the histogram percentile against the exact
  nearest-rank percentile, the closed-loop worker pool, in which every slot ends with the
  answer to its own request, its summary, and the search for a prompt of an exact length.

## How it is built

None of the lock-guarded sections of the three schedulers contains an `await`, so each is
one atomic step. Each scheduler is modelled twice. A state machine over values (`State`,
`Event`, `Step`, `Run`) carries the whole-run theorems: a run is any sequence of events,
and an event that cannot happen leaves the state as it is. A class with the source's own
fields performs the same steps in place, loops included, and every method is proved to
produce exactly the state of the step it stands for; a branch that would raise one of the
source's consistency errors is proved dead or shows up as `fault`, which no reachable
state has. Heap objects with identity (waiters, leases, items, groups, flush operations,
streams) are entries of tables, named by their position. The `-Effects` modules, with
`RoutingHealth`, `RunAnswers` and `SseTheorems`, say what the steps and the runs do without
the functions that the steps are made of: on the fields of the tables, the events of a run
and the bytes of a stream. Of the class methods the table
under "Model" names those with loops, dead branches or several outcomes; the others equal
their steps as well.

| files | content |
|---|---|
| `Collections`, `Sorting` | totals, duplicate-free sequences, pigeonhole, order and sorting |
| `AdmissionModel`, `-Invariant`, `-Dispatch`, `-Runs`, `-Fairness`, `-Theorems`, `-Effects`, `-Controller`, `LateTimeout` | admission |
| `Json`, `Compatibility`, `Demux` | canonical text, compatibility key, demultiplexing |
| `BatcherModel`, `-Invariant`, `-Steps`, `-Effects`, `-Theorems`, `DynamicBatcher` | batching |
| `SseModel`, `SseObserver`, `SseTheorems` | streaming metrics |
| `RoutingModel`, `-Selection`, `-Invariant`, `-Theorems`, `-Health`, `-Effects`, `-Runs`, `BackendPool` | routing and relaying |
| `Prometheus`, `Percentiles`, `Histograms`, `HistogramTheorems` | benchmark metrics |
| `RunPhase`, `RunAnswers`, `RunSummary`, `ExactPrompt` | benchmark runner and prompt search |

## What turned out not to hold

- A timeout that is processed after the grant reached the waiter's future loses the lease
  for good: unlike the cancellation branch, the timeout branch does not release it.
  `AdmissionTheorems.LosesExactlyWhen` shows that this is the only step that loses a
  lease, `LostForever` that the place stays occupied, and
  `LateTimeouts.LateTimeOutIsReachable` gives a run that gets there. Whether
  `asyncio.wait_for` can raise `TimeoutError` on a future that holds a result is outside the
  model.
- `StreamingRelay.aclose` promises cleanup exactly once. The admission lease is always
  released, but the metrics are not finalized and no outcome is reported exactly when the
  close is interrupted (`RoutingTheorems.RelaySilentExactlyWhenInterrupted`, with a run in
  `RoutingRuns.SilentRelayIsReachable`).
- `generate` and `generate_batch` report no outcome exactly when the backend call ends in
  an exception outside `Exception` other than a cancellation
  (`RoutingTheorems.SilentExactlyWhenFatal`, with a run in
  `RoutingRuns.SilentEndIsReachable`).
- `HistogramPercentile` does not check `p`: for `p <= 0` it returns a bound where the exact
  percentile is undefined (`HistogramTheorems.DefinednessAgreesExactly`, with an input in
  `HistogramTheorems.EstimateWithoutPercentile`).
- `build_exact_prompt` can report a reachable target as unreachable
  (`ExactPrompt.MissesWithoutSingleCrossing`). It does so exactly if no exact count lies in
  the range the doubling leaves with every probe on the way to it comparing the right way
  (`ExactPrompt.FoundExactlyWhenProbed`); a count that crosses the target once, such as a
  monotone one, is never missed. Its doubling ends exactly if some power of two reaches the
  target (`ExactPrompt.DoublingEndsExactly`), which it need not
  (`ExactPrompt.DoublingCanDiverge`).

## Model

| member | source | states |
|---|---|---|
| `AdmissionTheorems.EveryReachableStateIsGood` | gateway/admission/controller.py:145-324 | In every reachable state global inflight is both the sum of the tenants' inflight and the number of unreleased leases, global queued is the sum of the queue lengths, all four limits hold, the ring lists exactly the tenants with a non-empty queue, once each, and agrees with its id set, queues are in arrival order, a lease and the pending call that carries it point at each other, no accounting error was raised, and work is conserved |
| `AdmissionRuns.StepGood` | gateway/admission/controller.py:145-324 | Every single step keeps that invariant |
| `AdmissionRuns.ReleaseKeeps` | gateway/admission/controller.py:236-245 | Releasing keeps the invariant and cannot raise the accounting error |
| `AdmissionDispatch.DispatchKeeps` | gateway/admission/controller.py:247-273 | The dispatch loop keeps the invariant and terminates: each pass grants or ends it |
| `AdmissionDispatch.ExamineRing` | gateway/admission/controller.py:253-271 | One candidate leaves the front of the ring and comes back at its end exactly when it still has waiters; the other tenants keep their order |
| `AdmissionDispatch.ScanRefuses` | gateway/admission/controller.py:253-273 | A pass without a grant changes only queues and ring, and every tenant left in the ring is at its own cap |
| `AdmissionDispatch.ScanKeepsOrder` | gateway/admission/controller.py:253-262 | A pass without a grant puts the tenants that still have waiters behind the others in the order in which they were |
| `AdmissionDispatch.ScanTurns` | gateway/admission/controller.py:253-262 | When every tenant in the ring is at its cap a pass turns the ring once around and changes nothing else |
| `AdmissionDispatch.DispatchQuiet` | gateway/admission/controller.py:247-273 | After a dispatch the gateway is full or every tenant in the ring has a live waiter in front and is at its own cap |
| `AdmissionDispatch.QuietConserves` | gateway/admission/controller.py:247-273 | Hence no tenant with a live waiter could be admitted |
| `AdmissionDispatch.DispatchIdempotent` | gateway/admission/controller.py:247-273 | Dispatching twice is dispatching once |
| `AdmissionDispatch.RoomMeansEmptyQueue` | gateway/admission/controller.py:150-152 | No barging: after the dispatch, room for the tenant implies that its queue is empty |
| `AdmissionTheorems.NothingToDispatch` | gateway/admission/controller.py:247-273 | Between critical sections a dispatch grants nothing |
| `AdmissionTheorems.AcquireSimplified` | gateway/admission/controller.py:145-164 | `acquire` equals a simpler form: the first dispatch grants nothing, the queue test before the immediate grant is redundant, and the second dispatch changes nothing |
| `AdmissionEffects.DispatchClears` | gateway/admission/controller.py:247-282 | Between critical sections a dispatch only drops the done waiters from the fronts of the queues, and nothing at all while the gateway is full |
| `AdmissionEffects.AcquireDecides` | gateway/admission/controller.py:145-164 | An arrival is admitted exactly if its tenant and the gateway have a free place; otherwise it is refused exactly if the queue of the tenant is full (done waiters behind a live one counting) or the gateway holds its limit of waiters, and else it waits at the end of its queue |
| `AdmissionFairness.StepExtends` | gateway/admission/controller.py:145-324 | No future is resolved twice, no lease or waiter is revised, no release is undone |
| `AdmissionFairness.ScanFair` | gateway/admission/controller.py:253-271 | A pass that reaches the tenant of an eligible waiter grants it or a tenant in front of it |
| `AdmissionFairness.DispatchFair` | gateway/admission/controller.py:247-273 | One freed place yields exactly one grant, to the waiter's tenant or one in front of it in the ring |
| `AdmissionFairness.GrantedEarlier` | gateway/admission/controller.py:264-269 | A queue grant to the waiter's own tenant goes to somebody who arrived before it |
| `AdmissionFairness.AcquireFair` | gateway/admission/controller.py:145-164 | While somebody eligible waits, an arrival is granted nothing and joins behind |
| `AdmissionFairness.StepFair` | gateway/admission/controller.py:145-273 | Every step grants at most one place while an eligible waiter waits, and only in ring order |
| `AdmissionTheorems.CommonWaiter` | gateway/admission/controller.py:145-184 | A tenant that waits before and after a step has one waiter that waits before and after it |
| `AdmissionTheorems.OvertakenAtMostOnce` | gateway/admission/controller.py:247-273 | Until a tenant that waits, through one waiter or several, is granted, grants go to pairwise different tenants that were in front of it |
| `AdmissionTheorems.BoundedWait` | gateway/admission/controller.py:247-273 | With k live predecessors and N tenants an eligible waiter sees fewer than (k+1)*N grants go by |
| `AdmissionTheorems.Fairness` | gateway/admission/controller.py:145-273 | While a tenant has a live waiter and stays below its own cap, through whichever waiters, every other tenant is granted at most once before it, and fewer grants than there are tenants go by |
| `AdmissionTheorems.ReturnedIsGranted` | gateway/admission/controller.py:173-184 | While somebody eligible waits, every place given back, by a release or by the cancellation of a granted caller, is granted again in the same step |
| `AdmissionTheorems.NoStarvation` | gateway/admission/controller.py:145-273 | A tenant that waits throughout is granted before as many places are given back as there are tenants, whoever arrives in between |
| `AdmissionTheorems.WaiterFairness` | gateway/admission/controller.py:145-273 | For one waiter with k live predecessors among N tenants: fewer than (k+1)*N grants go by and fewer than (k+1)*N places are given back while it waits |
| `AdmissionTheorems.FirstComeFirstServed` | gateway/admission/controller.py:264-282 | Within a tenant, when a waiter is granted every earlier one is no longer waiting |
| `AdmissionTheorems.ReleaseTwice` | gateway/admission/controller.py:236-238 | Releasing a lease again changes nothing |
| `AdmissionEffects.ReleaseFreesPlace` | gateway/admission/controller.py:231-273 | A release marks its own lease and no other, and every lease granted by it is in the future of a waiter that had no result |
| `AdmissionTheorems.LosesExactlyWhen` | gateway/admission/controller.py:166-184 | A step loses a lease if and only if it is a timeout of a waiter whose future already holds one |
| `AdmissionEffects.LeaverIsGone` | gateway/admission/controller.py:166-184 | A waiter that times out or is cancelled is in no queue any more; a cancelled one gives back the lease in its future, one that timed out keeps it taken with nobody to release it |
| `AdmissionEffects.WaiterGivesUp` | gateway/admission/controller.py:166-184 | Whoever waits can give up: its future is cancelled, then its call ends, and it is in no queue any more |
| `LateTimeouts.LateTimeOutIsReachable` | gateway/admission/controller.py:166-172 | A run that reaches such a timeout in a state that has lost nothing |
| `AdmissionTheorems.LostForever` | gateway/admission/controller.py:168-172 | A lost lease occupies its place for the rest of every run |
| `AdmissionEffects.CloseFailsWaiters` | gateway/admission/controller.py:213-229 | Shutdown fails exactly the waiters without a result, as unavailable, empties every queue and takes no lease away |
| `AdmissionTheorems.ClosedForGood` | gateway/admission/controller.py:213-229 | After shutdown nobody waits, every future is done, nothing is granted, and inflight is the unreleased leases |
| `AdmissionControllers.AdmissionController.DiscardCompletedWaiters` | gateway/admission/controller.py:275-282 | Drops done waiters from the front of one queue and counts them down |
| `AdmissionControllers.AdmissionController.ExamineFront` | gateway/admission/controller.py:254-271 | One candidate of the dispatch loop, with its verdict |
| `AdmissionControllers.AdmissionController.ScanRing` | gateway/admission/controller.py:251-273 | The inner loop equals a scan of the ring up to the first grant |
| `AdmissionControllers.AdmissionController.DispatchLocked` | gateway/admission/controller.py:247-273 | The nested loops equal the specified dispatch |
| `AdmissionControllers.AdmissionController.AcquireSlot` | gateway/admission/controller.py:145-164 | The critical section of `acquire` with its four outcomes |
| `AdmissionControllers.AdmissionController.OnTimeOut` | gateway/admission/controller.py:168-172 | The timeout branch: remove the waiter, dispatch, release nothing |
| `AdmissionControllers.AdmissionController.OnCancelled` | gateway/admission/controller.py:173-184 | The cancellation branch: remove the waiter or give back the lease its future holds, then dispatch |
| `AdmissionControllers.AdmissionController.ReleaseLease` | gateway/admission/controller.py:231-234 | Release and dispatch in one critical section |
| `AdmissionControllers.AdmissionController.ShutDown` | gateway/admission/controller.py:213-229 | Fails every unresolved queued waiter, empties queues and ring; the accounting error cannot be raised |
| `AdmissionControllers.AdmissionController.FailQueued` | gateway/admission/controller.py:219-224 | The two loops of shutdown |
| `Json.PrintInjective` | gateway/batching/dynamic.py:71-81 | Equal canonical JSON texts mean equal values (string escaping as in section 7 of RFC 8259) |
| `Json.PrintUnique` | gateway/batching/dynamic.py:71-81 | Canonical text followed by anything that does not continue a number can be read in one way only |
| `Compatibility.SharedPayloadExact` | gateway/schemas/chat.py:74-85 | Two requests have the same shared payload exactly if they agree on every field but messages, n and the streaming fields, absent and null counting as the same |
| `Compatibility.WireForm` | gateway/schemas/chat.py:74-76 | Upstream gets the model, each message with role and content in order, and of the other fields exactly those given a value, each under its name and with its value |
| `Compatibility.KeyExact` | gateway/batching/dynamic.py:69-81 | Keys are equal exactly if tenant and shared payload are |
| `Compatibility.EligibleGroupIsAccepted` | gateway/backends/vllm.py:193-205 | Requests of one key that were judged eligible belong to one tenant and pass the compatibility checks of `generate_batch` |
| `Compatibility.BackendAcceptsExactly` | gateway/backends/vllm.py:193-205 | The backend accepts a batch exactly if it is not empty, no member asks for a stream, each asks for one choice, and all agree on every shared field |
| `Compatibility.EligibilityExact` | gateway/batching/eligibility.py:24-36 | A request may be batched exactly if batching is on, no stream is asked for and not more than one choice; the reason is the first that fails |
| `Compatibility.BatchWireForm` | gateway/backends/vllm.py:207-210 | The batch request carries the message lists of the members in member order, and neither n nor the streaming fields |
| `Compatibility.BatchPayloadKeepsMembers` | gateway/backends/vllm.py:207-210 | From the batch payload and a position the member's own upstream payload can be read back, up to the constant fields |
| `Demux.CollectExact` | gateway/backends/vllm.py:277-286 | The index loop accepts exactly the choices with pairwise different indices in range, and stores each under its index |
| `Demux.PermutedExactly` | gateway/backends/vllm.py:277-287 | For n choices, pairwise different indices in range is the same as: for every k below n exactly one choice carries k |
| `Demux.AcceptedIsComplete` | gateway/backends/vllm.py:273-288 | When the loop accepts as many choices as members every index occurs, so the final set test is redundant |
| `Demux.DemultiplexBatchResponse` | gateway/backends/vllm.py:268-300 | Accepts exactly a payload with n choices in which, for every k below n, one and only one choice is an object with the integer k under "index"; response k is made of that choice |
| `Demux.MemberResponseShows` | gateway/backends/vllm.py:290-300 | A response holds its own choice with index 0 and of the batch the safe fields only, no usage and nothing of other choices |
| `Demux.BatchUsageReads` | gateway/backends/vllm.py:301-314 | The usage of a batch is observed as n exactly if its `completion_tokens` is the integer n and n is not negative; it is missing exactly if there is no usage field |
| `Demux.AnswersUnique` | gateway/backends/vllm.py:290-300 | The payload determines the responses |
| `Demux.OrderIrrelevant` | gateway/backends/vllm.py:273-300 | Reordering the choices changes neither acceptance nor any response |
| `BatcherTheorems.EveryReachableStateIsGood` | gateway/batching/dynamic.py:118-324 | In every reachable state pending is the sum of the group sizes and the number of pending items, inflight is the number of flush operations not finished, groups in the map are non-empty, below the maximum size and have exactly one armed timer, no later than any member's arrival, an item is terminal exactly when its future is done, and no consistency error was raised |
| `BatcherTheorems.EachCallerGetsItsOwnAnswer` | gateway/batching/dynamic.py:245-289 | A caller that gets a result gets, from the answer to its own batch, the choice that has the integer of its position under "index", and the batch request carries its own messages at that position |
| `BatcherTheorems.FlushIsAccepted` | gateway/batching/dynamic.py:214-253 | Every flush is one tenant's, within the size limit, and passes the backend's compatibility checks |
| `BatcherTheorems.StepExtends` | gateway/batching/dynamic.py:118-324 | No future is resolved twice, no operation is counted down twice, no timer is re-armed |
| `BatcherTheorems.RunExtends` | gateway/batching/dynamic.py:118-324 | The same over every run |
| `BatcherTheorems.BoundedBatchWait` | gateway/batching/dynamic.py:135-149 | If timers fire when due no item stays pending longer than the maximum wait |
| `BatcherTheorems.DueTimersFire` | gateway/batching/dynamic.py:206-210 | From any state that keeps the invariant the due timers can fire one after the other; then the clock may pass, and every item that has waited for the maximum wait is dispatched in a new operation |
| `BatcherTheorems.WaitingIsEnough` | gateway/batching/dynamic.py:206-210 | From any state a run of nothing but due timers and the clock dispatches a pending item no later than the maximum wait after its submission |
| `BatcherEffects.TimerFlushes` | gateway/batching/dynamic.py:206-243 | The timer of a group in the map dispatches every member in one new operation, each at its own position; the key is free again, the timer has fired, and nothing else changes |
| `BatcherEffects.SubmissionJoins` | gateway/batching/dynamic.py:132-149 | An accepted submission is the last member of the group of its key; if that makes the group full, all of it is dispatched at once, else it waits under the timer armed when the first member came |
| `BatcherEffects.FlushCause` | gateway/batching/dynamic.py:132-149 | A new operation is the full group of the submission that filled it, or the group of a timer that has run for the maximum wait: nothing is flushed early |
| `BatcherEffects.BatchesInOrder` | gateway/batching/dynamic.py:214-243 | In every run a batch lists its members in the order of submission, is never above the maximum size, and was flushed for its size exactly if it is full |
| `BatcherEffects.FutureCause` | gateway/batching/dynamic.py:273-324 | A future is resolved only by the end of the call of its own operation, by its own caller leaving, or by shutdown |
| `BatcherTheorems.ClosedState` | gateway/batching/dynamic.py:157-192 | After shutdown nothing is pending and every unresolved item belongs to an operation whose backend call is running |
| `BatcherTheorems.ClosedForGood` | gateway/batching/dynamic.py:132-134 | After shutdown no item and no operation is ever added |
| `BatcherTheorems.DrainedIsEmpty` | gateway/batching/dynamic.py:157-204 | When the owned work has ended after shutdown the snapshot is (0, 0), every future is done, and every operation was counted down exactly once |
| `BatcherTheorems.Drains` | gateway/batching/dynamic.py:194-199 | From any state after shutdown the running calls can all end |
| `BatcherSteps.StepGood` | gateway/batching/dynamic.py:118-324 | Every step keeps the invariant and the room in every group |
| `BatcherSteps.StaleTimer` | gateway/batching/dynamic.py:214-220 | A timer that is not the live one of a group in the map changes nothing, not even a later group with the same key |
| `BatcherSteps.SettleItem` | gateway/batching/dynamic.py:273-304 | The end of a backend call resolves exactly the dispatched members of that operation, each by its own position |
| `BatcherEffects.AnswerResolves` | gateway/batching/dynamic.py:252-304 | With as many responses as members each member that has not left gets the response at its position; with another number, or after an error, it fails with an error; after a cancellation as unavailable |
| `BatcherEffects.OperationRuns` | gateway/batching/dynamic.py:245-271 | An operation that runs, gets an outcome and is counted down leaves no member unresolved, each with the response at its position, and one batch less in flight |
| `BatcherSteps.FinishKeeps` | gateway/batching/dynamic.py:265-270 | The final countdown finds inflight positive |
| `BatcherSteps.WithdrawIs` | gateway/batching/dynamic.py:306-317 | A pending item is in the group of its key; it leaves, and an emptied group leaves the map with its timer disarmed |
| `BatcherEffects.CancelMarks` | gateway/batching/dynamic.py:306-324 | A caller that leaves marks its own item and no other, unless the item is done already |
| `BatcherEffects.CancelLeaves` | gateway/batching/dynamic.py:306-317 | A pending item leaves its group, where the others keep their order; the last one takes the group out of the map and disarms its timer |
| `BatcherSteps.ShutItems` | gateway/batching/dynamic.py:164-186 | Shutdown resolves the pending items and the members of operations that never started, and nobody else |
| `BatcherEffects.ShutsDown` | gateway/batching/dynamic.py:157-192 | Shutdown fails exactly the items that wait or whose operation has not started, disarms every timer, and counts down exactly the operations that have not started |
| `BatcherInvariant.SubmitKeeps` | gateway/batching/dynamic.py:132-149 | A submission joins a group below the maximum, and a full group leaves the map at once |
| `BatcherInvariant.DetachIs` | gateway/batching/dynamic.py:214-243 | Detaching moves all members to one new flush operation in order, disarms the timer, and cannot raise the consistency error |
| `DynamicBatchers.DynamicBatcher.UpdateMembers` | gateway/batching/dynamic.py:223-226 | The loop over the members of a batch updates each by its own position |
| `DynamicBatchers.DynamicBatcher.DetachLocked` | gateway/batching/dynamic.py:214-243 | Equals the specified detachment, for stale groups too |
| `DynamicBatchers.DynamicBatcher.SubmitItem` | gateway/batching/dynamic.py:118-149 | Accepts exactly while open; the new item joins the group of its key, which is flushed when full |
| `DynamicBatchers.DynamicBatcher.OnTimer` | gateway/batching/dynamic.py:206-210 | The timer flushes its own group if it is still in the map |
| `DynamicBatchers.DynamicBatcher.OnAnswer` | gateway/batching/dynamic.py:252-264 | Success, a wrong number of responses, failure and interruption resolve the members as specified |
| `DynamicBatchers.DynamicBatcher.OnCancel` | gateway/batching/dynamic.py:306-324 | Cancels an item before or after dispatch, and its future if not done |
| `DynamicBatchers.DynamicBatcher.ShutDown` | gateway/batching/dynamic.py:157-192 | Both loops of shutdown equal the specified shutdown |
| `DynamicBatchers.DynamicBatcher.FailPending` | gateway/batching/dynamic.py:164-174 | The first loop fails the members of every group, in any order of the groups |
| `DynamicBatchers.DynamicBatcher.DropUnstarted` | gateway/batching/dynamic.py:175-190 | The second loop fails the members of operations that never started and counts them down |
| `SseModel.BoundaryStable` | gateway/observability/sse.py:92-95 | A boundary found in a prefix is the leftmost one of every continuation, with the same end |
| `SseModel.SplitLinesExact` | gateway/observability/sse.py:105 | The lines of an event with their ends, LF, CR or CRLF, are the event again, and no line holds an end |
| `SseModel.ParseSplit` | gateway/observability/sse.py:92-101 | Parsing a concatenation is parsing the first part and going on from what it left |
| `SseModel.ChunkingIsInvisible` | gateway/observability/sse.py:53-71 | However the bytes are cut, the observer ends in the state of the reference parse of the concatenation |
| `SseModel.SameStreamSameVerdict` | gateway/observability/sse.py:53-101 | Two cuts of one stream give the same events, disabled flag, first-content and usage verdict and buffer |
| `SseModel.ParseRefines` | gateway/observability/sse.py:103-173 | Nothing concluded is revised by later bytes |
| `SseModel.ParseConsistent` | gateway/observability/sse.py:92-101 | What parsing leaves in the buffer fits and holds no complete event; a disabled observer has an empty buffer |
| `SseTheorems.WholeStream` | gateway/observability/sse.py:92-173 | A stream is its events, each ended by the first of the four separators, and a rest. The observer is disabled exactly by an event with data that is neither the end marker nor an object, or by a rest that grows too long. First content was seen exactly if some event's payload has a choice whose delta has a content of positive length; the first payload with a usage field decides the usage |
| `SseTheorems.StreamReports` | gateway/observability/sse.py:73-90 | However the stream is cut, the closing reports follow from its events: missing first content exactly if no event shows any, and exactly one of observed, invalid and missing tokens |
| `SseTheorems.BoundaryExact` | gateway/observability/sse.py:16 | A boundary is found exactly where one of LF LF, CR LF LF, LF CR LF and CR LF CR LF begins |
| `SseTheorems.DataExact` | gateway/observability/sse.py:104-115 | The data of an event, told from its bytes: its lines, the values of its data fields with one space dropped, joined by LF |
| `SseTheorems.LinesUnique` | gateway/observability/sse.py:105 | There is one way to cut an event into lines |
| `SseTheorems.DoneExact` | gateway/observability/sse.py:116 | The end marker is recognised exactly with nothing but blanks around it |
| `SseTheorems.ContentIsReported` | gateway/observability/sse.py:129-155 | The stream of one event with the content "Hi" reports first content |
| `SseTheorems.EmptyContentIsMissing` | gateway/observability/sse.py:73-80 | The stream of one event with an empty content ends with missing first content |
| `SseTheorems.DoneIsNoPayload` | gateway/observability/sse.py:73-90 | The stream of the end marker alone ends with missing first content and missing tokens, and is not disabled |
| `SseObserver.SSEMetricsObserver.ObserveBytes` | gateway/observability/sse.py:53-71 | The bounded loop equals feeding the whole chunk to the reference parser; the buffer never exceeds its bound |
| `SseObserver.SSEMetricsObserver.DrainEvents` | gateway/observability/sse.py:92-101 | Takes every complete event; the oversize branch is unreachable |
| `SseObserver.SSEMetricsObserver.ObserveOne` | gateway/observability/sse.py:103-127 | One event: data lines, comments, the end marker, malformed and non-object payloads |
| `SseObserver.SSEMetricsObserver.CollectData` | gateway/observability/sse.py:104-112 | The data lines of an event in order |
| `SseObserver.SSEMetricsObserver.ObserveFirstContent` | gateway/observability/sse.py:129-155 | First content is reported once, by the first payload that shows some |
| `SseObserver.SSEMetricsObserver.ObserveUsage` | gateway/observability/sse.py:157-173 | The first payload with a usage field decides the usage verdict |
| `SseObserver.SSEMetricsObserver.Finalize` | gateway/observability/sse.py:73-90 | The closing reports follow from the verdict and are made exactly once |
| `RoutingTheorems.EveryReachableStateIsGood` | gateway/routing/pool.py:155-458 | In every reachable state each load is the weight of the unreleased leases of that backend, the active set is the set of unreleased leases, every operation owns its lease until it ends, streams are registered exactly while open, and closing has captured all that is left |
| `RoutingTheorems.LoadIsUnreleasedWeight` | gateway/routing/pool.py:393-419 | A load equals the summed weights of its unreleased leases, is never negative, and the accounting error is never raised |
| `RoutingTheorems.BeginSelects` | gateway/routing/pool.py:369-398 | A new operation is exactly one selection of the rotating search, and begins exactly if a backend is healthy |
| `RoutingHealth.HealthFollowsEvents` | gateway/routing/pool.py:435-441 | Over every run, while the pool is open: a backend is healthy exactly if the last health event on it was a successful probe, and unhealthy exactly if it was a failed probe or a call or iteration that ended in a health failure |
| `RoutingHealth.SelectedIsUp` | gateway/routing/pool.py:369-392 | A new operation never gets a backend whose last health event was a failure, or that had none |
| `RoutingEffects.BeginTakes` | gateway/routing/pool.py:369-398 | A new operation takes its weight on a healthy backend that carries less than every other healthy one, or as little and is met first from the cursor on; the cursor moves behind it |
| `RoutingTheorems.RunExtends` | gateway/routing/pool.py:104-152 | Phases only advance; a lease keeps backend and weight and is never taken back; an ended operation keeps its report, an ended relay its own |
| `RoutingTheorems.OwnedUntilEnd` | gateway/routing/pool.py:235-302 | The lease is held while the operation runs, unless closing the pool took it; one outcome is reported at the end, none before |
| `RoutingEffects.CallSettles` | gateway/routing/pool.py:235-302 | The end of a call gives the lease back and reports success, cancellation or error by the way it ended |
| `RoutingEffects.StreamSettles` | gateway/routing/pool.py:127-152 | When closing the leaf ends the lease is given back, the stream is unregistered and one outcome is reported: the planned one unless closing is cancelled or fails |
| `RoutingEffects.StreamReadOut` | gateway/routing/pool.py:104-152 | From an open stream by its own iterator: the report and what the consumer sees, for every end of the iteration and of the close |
| `RoutingTheorems.SilentExactlyWhenFatal` | gateway/routing/pool.py:238-302 | An operation ends without a report exactly when a fatal exception ends a non-streaming backend call |
| `RoutingTheorems.SuccessIsDeserved` | gateway/streaming/relay.py:48-73 | Over every run: a routed stream counts as success only if its iterator reached the end before the leaf was closed; a relay reports completion only if the iterator reached the end, and the stream had ended and the relay's loop had run to its end before the relay was closed; it reports an error only if the loop raised one or closing the leaf failed |
| `RoutingRuns.CompletionIsReachable` | gateway/streaming/relay.py:48-73 | A stream that is read to its end completes and is a success |
| `RoutingRuns.SilentRelayIsReachable` | gateway/streaming/relay.py:82-105 | A relay whose close is cancelled releases the admission lease and reports nothing |
| `RoutingRuns.SilentEndIsReachable` | gateway/routing/pool.py:235-254 | A call of `generate` that ends in a fatal exception reports nothing |
| `RoutingTheorems.AdmissionReleasedOnce` | gateway/streaming/relay.py:75-94 | The admission lease of a stream is released once: when its relay ends or the stream failed to open |
| `RoutingTheorems.RelaySilentExactlyWhenInterrupted` | gateway/streaming/relay.py:82-105 | The step that ends a relay releases the admission lease; it reports no outcome exactly when the close is interrupted |
| `RoutingTheorems.RelayCloseSettles` | gateway/streaming/relay.py:75-110 | Closing a relay settles routing lease, outcome and admission lease, whatever state the stream was left in |
| `RoutingEffects.RelayGivesUp` | gateway/streaming/relay.py:75-105 | A relay that is closed over an open stream: the stream counts as cancelled, the admission lease is released once, and the relay reports its outcome, a failure of the close, or nothing |
| `RoutingEffects.RelayFinishes` | gateway/streaming/relay.py:48-105 | A relay behind its loop reports how the loop ended, and releases the admission lease |
| `RoutingEffects.ReportedRelayIsOver` | gateway/streaming/relay.py:75-105 | A relay that has reported an outcome has seen its stream end: routing lease, outcome and admission lease are settled |
| `RoutingTheorems.ClosedForGood` | gateway/routing/pool.py:323-354 | After `close` has completed every load is zero and stays zero through any later events, and no operation begins |
| `RoutingTheorems.CloseGetsThrough` | gateway/routing/pool.py:342-354 | Once the captured streams have ended, releasing the captured leases lets `close` complete although operations may still run |
| `RoutingEffects.CloseCaptures` | gateway/routing/pool.py:323-333 | Closing captures, once, exactly the unreleased leases and the streams that are open at that moment |
| `RoutingEffects.CloseWaits` | gateway/routing/pool.py:342-354 | It goes on to the leases only when every captured stream has ended, and ends only when every captured lease is released |
| `RoutingSelection.ChosenExactly` | gateway/routing/pool.py:376-392 | A backend is chosen exactly if one is healthy; it is a least loaded healthy one, the first from the cursor on |
| `RoutingSelection.SpreadKept` | gateway/routing/pool.py:382-395 | Selections with weights at most W keep the loads of the healthy backends within W of each other |
| `RoutingSelection.RoundRobin` | gateway/routing/pool.py:388-395 | From equal loads unit selections visit the healthy backends in exact cyclic order, round after round, with exact loads and cursor |
| `RoutingSelection.CycleIsComplete` | gateway/routing/pool.py:376-392 | The cycle holds every healthy backend exactly once |
| `RoutingInvariant.StepKeeps` | gateway/routing/pool.py:155-458 | Every step keeps the invariant |
| `RoutingInvariant.LoadCovers` | gateway/routing/pool.py:410-417 | The load of a backend covers each unreleased lease |
| `RoutingInvariant.CloseEndsKeeps` | gateway/routing/pool.py:350-354 | The last section of `close` leaves no active lease and no healthy backend |
| `BackendPools.BackendPool.HealthyAndMinimum` | gateway/routing/pool.py:376-382 | The healthy backends and the least load among them |
| `BackendPools.BackendPool.SelectSlot` | gateway/routing/pool.py:376-392 | The search returns the specified choice; it cannot run out of candidates |
| `BackendPools.BackendPool.BeginOperation` | gateway/routing/pool.py:369-398 | Selects and creates the lease; refuses without weight, after closing and without a healthy backend, and in no other case |
| `BackendPools.BackendPool.ReleaseLease` | gateway/routing/pool.py:410-419 | Releases once; the accounting error cannot be raised |
| `BackendPools.BackendPool.OnCallEnds` | gateway/routing/pool.py:235-302 | The end of a backend call, by operation and exception class, including a stream that opens after closing |
| `BackendPools.BackendPool.OnIterationEnds` | gateway/routing/pool.py:104-125 | The end of an iteration marks an unhealthy backend, enters `_finish` with the outcome of its handler, and is over at once if the stream is closed |
| `BackendPools.BackendPool.OnStreamCloses` | gateway/routing/pool.py:133-152 | Release, unregister and report after the leaf is closed, and the continuation of whoever awaited it |
| `BackendPools.BackendPool.ReleaseOneCaptured` | gateway/routing/pool.py:350 | One release of `close`, between any other steps, whether or not the operation still runs |
| `BackendPools.BackendPool.ReleaseCaptured` | gateway/routing/pool.py:350 | Releasing the captured leases without a break, in any order, leaves none active |
| `BackendPools.BackendPool.EndClose` | gateway/routing/pool.py:351-354 | Every backend is marked unhealthy |
| `Prometheus.MatchingSeries` | benchmark/internal/metrics/prometheus.go:198-211 | The values of the wanted series by label text |
| `Prometheus.MatchingExact` | benchmark/internal/metrics/prometheus.go:198-220 | A value is found under a label text exactly if a series of that name has those labels and that value, an absent label counting as the empty string |
| `Prometheus.IdentityUnique` | benchmark/internal/metrics/prometheus.go:125-140 | Label sets with legal names and values without a bar have the same text exactly if they are equal |
| `Prometheus.CounterDelta` | benchmark/internal/metrics/prometheus.go:175-196 | Sum of the growths, reset exactly if some series fell, missing exactly if a series disappeared or none matches, in any order of the maps |
| `Prometheus.DeltaSays` | benchmark/internal/metrics/prometheus.go:175-196 | Found, reset and missing series by series; the value is the growth of the series that did not fall, a new one counting from zero |
| `Prometheus.SumPick` | benchmark/internal/metrics/prometheus.go:182-189 | The order of summation does not matter |
| `Prometheus.DeltaIsDifference` | benchmark/internal/metrics/prometheus.go:173-196 | Without reset or missing series the delta is the difference of the sums |
| `Prometheus.DeltasAdd` | benchmark/internal/metrics/prometheus.go:173-196 | Deltas of consecutive intervals add up, series appearing on the way included |
| `Prometheus.HistogramMean` | benchmark/internal/metrics/prometheus.go:222-234 | The mean times the count is the sum; defined exactly without reset, with both metrics found and a positive count |
| `Percentiles.Percentile` | benchmark/internal/stats/stats.go:9-20 | Defined exactly for observations and 0 < p <= 1; the result is the observation of nearest rank: a bound covers that many observations exactly if it is not below it |
| `Percentiles.NearestRankExact` | benchmark/internal/stats/stats.go:9-20 | The percentile is the least observation such that at least the fraction p of all observations is not above it |
| `Percentiles.RankIsLeast` | benchmark/internal/stats/stats.go:16-18 | The rank is the least integer that is not below p times the number of observations |
| `Percentiles.RankCovered` | benchmark/internal/stats/stats.go:16-18 | In ascending order a bound covers rank observations exactly if it covers the one of that rank |
| `Percentiles.ScanBuckets` | benchmark/internal/metrics/prometheus.go:270-289 | The scan finds the least bound whose cumulative delta reaches the rank, or the last finite bound when that is the unbounded bucket |
| `Histograms.CollectBuckets` | benchmark/internal/metrics/prometheus.go:244-266 | One bucket for each readable bound of the scrape, with the delta of one text that stands for it |
| `Histograms.HistogramPercentile` | benchmark/internal/metrics/prometheus.go:236-290 | Reset exactly if a bucket was reset; otherwise the least bound whose delta reaches the rank of the total, or the last finite bound, or nothing |
| `HistogramTheorems.EstimateRefinesPercentile` | benchmark/internal/metrics/prometheus.go:236-290 | For deltas that count any observations the estimate is the least bound at or above the nearest-rank percentile, or the last finite bound beyond all |
| `HistogramTheorems.DefinednessAgreesExactly` | benchmark/internal/metrics/prometheus.go:271-275 | Estimate and exact percentile agree on being defined exactly if there are no observations or p is positive |
| `HistogramTheorems.EstimateWithoutPercentile` | benchmark/internal/metrics/prometheus.go:271-288 | One observation and p = 0: the estimate is a bound although the exact percentile is undefined |
| `HistogramTheorems.ExposedDelta` | benchmark/internal/metrics/prometheus.go:259-265 | For scrapes with any number of label groups the delta of a bound counts the observations of all groups up to that bound |
| `HistogramTheorems.HistogramRefinesPercentile` | benchmark/internal/metrics/prometheus.go:236-290 | End to end from two scrapes, any label groups and any order of the maps: the result is the least exposed bound at or above the exact percentile of the observations between them, or the last finite bound |
| `RunPhase.PlacesKept` | benchmark/internal/runner/runner.go:103-142 | Every job is in exactly one place: at a worker, in the buffer or stored; a step moves it to the next |
| `RunPhase.SlotIsFree` | benchmark/internal/runner/runner.go:136-141 | The next result fits into a slot that is in range and still empty, under both encodings |
| `RunPhase.StepKeeps` | benchmark/internal/runner/runner.go:102-144 | Every step keeps the invariant of the phase |
| `RunPhase.NoDeadlock` | benchmark/internal/runner/runner.go:109-142 | While the phase is not over some goroutine can go on |
| `RunPhase.EveryRunCompletes` | benchmark/internal/runner/runner.go:102-144 | A run that cannot be continued has taken four steps for each request, one for each worker and three to close, and has filled every slot with the result of its own sequence number; no run is longer |
| `RunAnswers.EverySlotHoldsItsAnswer` | benchmark/internal/runner/runner.go:112-142 | In a phase that is over slot i holds the answer of the client to job i: exactly one event of the run is a response to a worker that held this job, and the slot holds its answer under the sequence number of the job |
| `RunPhase.SendNeverBlocks` | benchmark/internal/runner/runner.go:104-122 | A worker with a result finds room in the buffer |
| `RunPhase.ClosedLoop` | benchmark/internal/runner/runner.go:105-124 | There are min(concurrency, count) workers, and at most as many requests are outstanding |
| `RunPhase.CollectOrdered` | benchmark/internal/runner/runner.go:135-143 | The collector stores every result in its own slot and fills all slots when all results come |
| `RunSummary.Summarize` | benchmark/internal/runner/runner.go:146-187 | Counts, latencies and rates; failures exactly by category; the token rate is given exactly if every success reports its tokens |
| `RunSummary.FailuresCounted` | benchmark/internal/runner/runner.go:155-158 | The count of a category is the number of failed results in it |
| `RunSummary.CoverageCounted` | benchmark/internal/runner/runner.go:165-168 | The coverage is the number of successful results with tokens |
| `RunSummary.LatenciesAre` | benchmark/internal/runner/runner.go:160-164 | The latencies are those of the successful results, in order |
| `RunSummary.FirstTokensAre` | benchmark/internal/runner/runner.go:160-164 | The first-token times are those of the successful results that have one, in order |
| `RunSummary.CategoriesAddUp` | benchmark/internal/runner/runner.go:155-158 | The categories account for every failure |
| `RunSummary.CoverageIsComplete` | benchmark/internal/runner/runner.go:165-176 | Coverage equals the successes exactly if every success is covered |
| `ExactPrompt.FindRange` | benchmark/scripts/exact_prompt.py:57-59 | The doubling ends with the first power of two that has enough tokens, and the one before it |
| `ExactPrompt.SearchRange` | benchmark/scripts/exact_prompt.py:60-68 | The loop equals the recursive binary search |
| `ExactPrompt.BuildExactPrompt` | benchmark/scripts/exact_prompt.py:40-69 | Rejects exactly non-positive targets, otherwise searches the range that the doubling leaves |
| `ExactPrompt.ExactWhenReachable` | benchmark/scripts/exact_prompt.py:60-69 | An answer is always exact; if the count crosses the target once there is an answer exactly if some repetition count is exact |
| `ExactPrompt.SearchFindsExactly` | benchmark/scripts/exact_prompt.py:60-68 | The binary search finds a count exactly if it is exact and every probe on the way to it compares the right way |
| `ExactPrompt.FoundExactlyWhenProbed` | benchmark/scripts/exact_prompt.py:57-69 | For any tokenizer: a count is the answer exactly if it is exact, in the range the doubling leaves, and the probes on the way to it agree; a target is reported unreachable exactly if no exact count is like that |
| `ExactPrompt.MonotoneCrossesOnce` | benchmark/scripts/exact_prompt.py:57-68 | A monotone count crosses every target once |
| `ExactPrompt.SearchComplete` | benchmark/scripts/exact_prompt.py:60-68 | The binary search misses nothing in its range |
| `ExactPrompt.MissesWithoutSingleCrossing` | benchmark/scripts/exact_prompt.py:60-69 | A token count without a single crossing for which a reachable target is reported unreachable |
| `ExactPrompt.FindsWithoutSingleCrossing` | benchmark/scripts/exact_prompt.py:60-69 | A count without a single crossing for which the target is found |
| `ExactPrompt.DoublingCanDiverge` | benchmark/scripts/exact_prompt.py:57-59 | A tokenizer for which the doubling never ends |
| `ExactPrompt.DoublingEndsExactly` | benchmark/scripts/exact_prompt.py:57-59 | The doubling ends exactly if a power of two has enough tokens |
| `ExactPrompt.DoublingNeverEnds` | benchmark/scripts/exact_prompt.py:57-59 | Otherwise no number of rounds ends it |

## Left out

- The event loop, task scheduling and `asyncio.wait_for`: critical sections are atomic steps,
  and what happens between two of them is any interleaving. That a timeout arrives at a waiter
  whose future holds no lease is an assumption of the deployment, not a theorem.
- Clocks, durations, observers, logging and metrics sinks: time is a counter, reports are
  recorded where a property counts them, and observers are taken not to raise.
- HTTP transport, status mapping, authentication, request limits and the JSON parser: a backend
  call ends in any way its type allows, and parsing is a parameter.
- Object identity and aliasing: waiters, leases, items, groups, flush operations, streams and
  relays are entries of tables; `_closed` flags of streams and relays are phases of an operation.
- Validation in constructors, duplicate or blank identifiers, tenant names: tenants and backends
  are numbered by position, an unknown tenant is any other number, and limits are taken as valid.
- Floating point: values are real numbers, the text of a float is taken to determine it, and
  bounds that are NaN or negative infinity do not occur.
- AdmissionTheorems.Fairness: counts grants, not seconds.
- BatcherTheorems.BoundedBatchWait: assumes that a timer fires when it is due, because task scheduling is not modelled;
  `BatcherTheorems.WaitingIsEnough` shows that such runs exist from every state.
- Prometheus.IdentityUnique: requires label values without a bar; `Prometheus.BarsCollide` gives two label sets that the
  source's key does not tell apart otherwise.
- BatcherTheorems.Drains: shows that the running calls can end, not that the event loop lets them.
- RoutingTheorems.CloseGetsThrough: assumes that the captured streams have ended; the closing of a leaf stream may take any time.
- RoutingTheorems.SuccessIsDeserved: says what a report implies, not which of several competing closes comes first.
- BackendPools.BackendPool.ReleaseCaptured: releases without interleaved steps; `ReleaseOneCaptured` is the single step, and `RoutingTheorems.ClosedForGood` covers every interleaving.
- HistogramTheorems.HistogramRefinesPercentile: assumes the unbounded bucket and one text for each bound, as an exposition has them.
- Library sorts are modelled by insertion on values; that they sort and permute is proved.
- ExactPrompt.BuildExactPrompt: requires that the doubling ends, since otherwise the source never returns.
- RunPhase.CollectOrdered: takes the results as a sequence; that they have different slots in range is proved for the phase.
- Snapshots, `is_routable`, probe scheduling, the start of the pool: read-only or arbitrary health steps.
- Parsing of Prometheus text, `token_count`, latency percentiles of the summary, the choice of the
  corpus record, matrix orchestration, samplers and reports: easy facts or I/O.
