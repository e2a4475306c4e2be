# Nazh workflow runtime: model and proofs

Nazh runs workflows of nodes on industrial edge devices. Messages between nodes are small references to payloads that
live in a shared, reference-counted store; devices are reached over connections guarded by a circuit breaker; messages
arrive over dispatch lanes with retry and dead letters. This project models the parts whose correctness spans many
functions or whole runs, and proves what they keep.

| file | what it models |
|---|---|
| `DataStore.dfy`, `Producers.dfy`, `Runner.dfy`, `OutputCache.dfy`, `EdgeWindow.dfy` | the payload store, the loops that share one payload among channels, the node runner, output slots and edge statistics, as classes and loops over mutable state |
| `DataPlane.dfy`, `DataPlaneRace.dfy`, `DataPlaneOrder.dfy` | the same traffic as a step machine: any number of runners, triggers, submitters and result readers interleaving atomic actions |
| `Policy.dfy`, `Health.dfy`, `Manager.dfy`, `ManagerSafety.dfy`, `ManagerFailures.dfy`, `ManagerPhases.dfy`, `ManagerLoans.dfy` | governance values and delays, the health record with its guard, and whole runs of one managed connection |
| `DispatchLane.dfy`, `BatchWriter.dfy` | the two producer/consumer protocols |
| `WorkflowSpec.dfy`, `StateMachine.dfy` | the static validator and the state-machine node |
| `Text.dfy`, `Template.dfy`, `Duration.dfy` | `${name}` templates and durations |
| `Pin.dfy`, `PinValidator.dfy` | pin compatibility and the deploy-time validator |

## Where the code is not what one would expect

Each of these is a proved statement about the model: an input or a run on which the expected property fails, and next to
it the exact condition or the invariant that does hold.

* **Fan-out under DropNewest.** On a full channel the runner gives its share back and reads `is_closed()` in a second,
  separate step. `DataPlane` keeps the two steps apart. A run keeps all counts exact iff it takes no harmful step
  (`RunsAreCounted`): one in which that second step finds the channel closed while somebody besides this fan-out still
  refers to the payload. This takes a receiver that leaves between the two steps (`HarmTakesARace`), and it can happen:
  `DataPlaneRace.RaceLosesPayload` is such a run, step by step, on an acyclic graph and a store without limit, after which
  a receiver holds a reference to nothing. `Producers.FanOut` carries the same extra share in its contract.
* **Reconnecting without a retry time.** `acquire` puts a borrowed connection with earlier failures into Reconnecting
  without setting a deadline (`ReconnectingWithoutRetryTime`), and does not look at the retry time: the reconnect delay
  is advice to the caller. A reachable connection in Reconnecting has the retry time of its last failure iff the step
  that last entered the phase recorded a failure or lent the connection while that retry was pending
  (`ReconnectingBacksOffIff`, `LoanBacksOffIff`); one borrowed while it backs off goes on iff the wait is not over
  (`LoanWhileBackingOff`). `WellShaped` holds in every reachable state.
* **Exclusive leases.** Marking invalid, disconnecting or stopping frees a record whose guard is still out; then a second
  guard can be lent (`TwoGuards`). `StepExclusive` says exactly which steps break exclusivity.
* **A failure counted twice.** A lease that already recorded its failure counts it again on `mark_failure` iff a step in
  between took the phase out of Reconnecting, Timeout and CircuitOpen and no later loan brought it back
  (`CountedTwiceIff`, over any steps; `Hides` and `Regains` say which ones, by their guards). A heartbeat during the lease
  is enough (`HeartbeatCountsTwice`); so is a poll after the deadline of the circuit that the failure opened.
* **Data pins and unnamed edges.** The runner filters edges by the port they name, and an edge that names none leaves "out".
  So it pushes on an edge that leaves a Data pin iff the edge names no port, "out" is a Data pin and the output is broadcast
  (`PushedFromDataIff`). A deployment never hands the runner such an edge: it sorts edges by the kind of the pin they leave.
* **Lane depth under RejectNewest.** The depth is raised after the send, so a fast consumer can lower it first; the lowering
  stops at zero, and the lane then reports one message too many for good, once for every decrement that found zero
  (`DepthDrifts`, `DepthReport`). With Block the depth is exact.
* **Undeclared governance.** Clamping alone does not order base and maximum of the reconnect delay
  (`UnvalidatedBaseAboveMax`). A delay lies between them iff the clamped base does not exceed the clamped maximum
  (`DelayIsBounded`), which validation guarantees (`ValidatedStaysOrdered`).
* **Template names.** Validation trims names, expansion does not: `${ x }` passes validation when `x` is declared, and is
  never expanded (`PaddedNameStays`). A validated template finds all its names declared iff none is blank and each padded
  one is declared with its padding (`ValidatedResolvesIff`).

## Assumptions

* A random payload id is a number never handed out before. A message is represented by the id it carries.
* The store's capacity test and insertion are one atomic write; the compare-and-swap loop that lowers the lane depth is one
  atomic step.
* Transform, data pulls, guard scripts, deliveries, `flush_fn`, clocks and the answers of channels are arguments or
  nondeterministic steps. Times are integers; the calls of one run come in the order of their times.
* `Producers` and `Runner` describe one agent on its own; what other agents do in between is the subject of `DataPlane`.
* A message left in the inbox of a stopped runner stays counted as held.

## Model

| member | source | states |
|---|---|---|
| `DataStore.ReleasedTimesCounts` | crates/core/src/data.rs:173-179 | n releases take exactly n off one count, stop at removal, leave no entry at zero and touch no other payload |
| `DataStore.ReleasedTimesAdd` | crates/core/src/data.rs:173-179 | giving back a shares and then b is giving back a + b |
| `DataStore.ArenaDataStore.Write` | crates/core/src/data.rs:140-157 | refuses exactly at capacity and then changes nothing; otherwise stores the payload under a new id for max(consumers, 1) readers |
| `DataStore.ArenaDataStore.Read` | crates/core/src/data.rs:159-171 | succeeds exactly while the entry is alive, with its payload |
| `DataStore.ArenaDataStore.Release` | crates/core/src/data.rs:173-179 | one share less; the last share removes the entry |
| `DataPlane.HeldIsAlive` | crates/core/src/data.rs:159-179 | whoever holds shares of a payload keeps at least that many on its count |
| `DataPlane.BeginKeeps` | crates/graph/src/runner.rs:241-256 | storing an output for its targets keeps the count equal to the outstanding references |
| `DataPlane.ClosedKeeps` | crates/graph/src/runner.rs:310-323 | a closed channel pays back exactly the unsent tail (runner, submit) or one share (emit) |
| `DataPlane.QueuedKeeps` | crates/graph/src/runner.rs:278-285 | a queued message takes its share along |
| `DataPlane.FullKeeps` | crates/graph/src/runner.rs:286-304 | a full DropNewest channel gives exactly one share back |
| `DataPlane.RecvKeeps` | crates/graph/src/runner.rs:93-106 | receiving moves a reference from the inbox to the hand |
| `DataPlane.ShareKeeps` | crates/graph/src/runner.rs:116-125 | reading back and releasing returns exactly the received share |
| `DataPlane.StepKeepsInv` | crates/graph/src/runner.rs:93-398 | every step of every agent that is not harmful keeps counts, live entries and payloads |
| `DataPlane.RunsAreCounted` | crates/graph/src/runner.rs:93-398 | a run keeps the count of each id equal to the references in channels and hands plus shares still to be sent, in all its states, iff it takes no harmful step |
| `DataPlane.HarmTakesARace` | crates/graph/src/runner.rs:286-323 | a run in which no receiver leaves between `try_send` and is_closed() takes no harmful step |
| `DataPlane.ReceivedIsReadable` | crates/graph/src/runner.rs:116-125 | after a run without a harmful step a received reference reads back the payload written under its id |
| `DataPlane.AliveIffOutstanding` | crates/core/src/data.rs:139-180 | after a run without a harmful step an entry is alive exactly while a reference to it is outstanding |
| `DataPlane.QuiescentStoreIsEmpty` | crates/core/src/data.rs:173-180 | after a run without a harmful step, with empty channels and empty hands, the store is empty |
| `DataPlane.WindowIsExact` | crates/graph/src/runner.rs:286-323 | asking is_closed() after Full keeps the counts iff the channel is still open or nothing but the unsent shares is left |
| `DataPlane.StepIsExact` | crates/graph/src/runner.rs:93-398 | from any reachable counted state a step keeps the counts iff it is not harmful |
| `DataPlaneOrder.ChannelsKeepOrder` | crates/graph/src/deploy.rs:134-142 | in any run a channel is first in, first out: what was put is what was taken and then what is queued; the queue never exceeds its capacity |
| `DataPlaneOrder.StoreKeepsLimit` | crates/core/src/data.rs:140-157 | in any run a limited store never holds more entries than its limit |
| `DataPlaneOrder.OnlyDropNewestDrops` | crates/graph/src/runner.rs:278-305 | in any run a message is given up on a full channel only under DropNewest, and only by a runner |
| `DataPlaneOrder.ClosedSend` | crates/graph/src/runner.rs:306-323 | at a closed channel a runner stops, an ingress call ends, a trigger goes on with the next target |
| `DataPlaneOrder.StoppedForGood` | crates/graph/src/runner.rs:366-369 | a runner that left its loop takes, stores and sends nothing any more |
| `DataPlaneRace.RaceLosesPayload` | crates/graph/src/runner.rs:286-323 | a run of 23 enabled steps, on an acyclic graph and an unlimited store, in which a receiver leaves inside the window and another receiver finds its payload gone |
| `Producers.WriteThenRelease` | crates/graph/src/types.rs:195-216 | writing for n and giving back k leaves the payload for exactly n - k readers |
| `Producers.FanOut` | crates/graph/src/runner.rs:270-323 | delivered plus given back is the number of targets for every mix of policies and answers; a receiver leaving in the window adds exactly one |
| `Producers.Submit` | crates/graph/src/types.rs:189-217 | all roots or an error; after a closed root only the delivered shares remain |
| `Producers.SubmitTo` | crates/graph/src/types.rs:224-275 | the named root owns the payload, or nothing was stored |
| `Producers.Emit` | crates/core/src/lifecycle.rs:126-208 | goes on after closed channels; the store keeps one share per accepted message, none without downstream; Started, one summary per message sent, Completed with the metadata, and no event when refused |
| `Producers.SummariesFitDeliveries` | crates/core/src/lifecycle.rs:158-188 | exactly one summary for each message sent, in the order of the targets |
| `Producers.NextResult` | crates/graph/src/types.rs:293-302 | returns the payload of the first result and gives back its one share |
| `Runner.PrepareSlots` | crates/graph/src/deploy.rs:265-285 | a deployed node has an empty slot for exactly its Data and Reactive output pins |
| `OutputCache.OutputCache.Write` | crates/core/src/cache.rs:61-73 | writes prepared slots only and reports exactly the changes of value |
| `OutputCache.OutputCache.Read` | crates/core/src/cache.rs:89-101 | a value exactly when one was written and is not older than its time to live |
| `Runner.CacheAgreesWithHistory` | crates/graph/src/runner.rs:172-196 | over any history of messages and outputs each slot holds the pin's value of the last output that addressed it, with that output's trace and time |
| `Runner.HistoryParts` | crates/graph/src/runner.rs:93-398 | what a history makes of store and slots can be read in two parts |
| `Runner.SlotsAgree` | crates/graph/src/runner.rs:172-196 | after the receive loop each slot holds the value of the last output, over all messages, that addressed it |
| `Runner.WriteCache` | crates/graph/src/runner.rs:172-196 | an output writes the slots its dispatch addresses and no others, in any set order |
| `Runner.MetadataLaterWins` | crates/graph/src/runner.rs:222-229 | merged metadata is None iff no output had any; otherwise each key has the value of the last output naming it |
| `Runner.NoOutputVanishes` | crates/graph/src/runner.rs:198-268 | an output without a send error addressed a prepared slot, was tried on every selected edge, or went to the result stream |
| `Runner.NodeRunner.SendToTargets` | crates/graph/src/runner.rs:270-345 | after the selected edges only the delivered shares of the new payload remain |
| `Runner.TriedEdgesIff` | crates/graph/src/runner.rs:198-220 | a routed output is tried on exactly the edges that name one of its ports and take pushes, a broadcast on exactly those that name no port or one that takes pushes, each once, in order |
| `Runner.PushedFromDataIff` | crates/graph/src/runner.rs:198-220 | an edge that leaves a Data pin is pushed to iff it names no port, "out" is a Data pin and the output is broadcast |
| `Runner.BroadcastReachesAll` | crates/graph/src/topology/classify.rs:100-136 | with the edges a deployment sorts out, a broadcast is tried on every edge |
| `Runner.CacheOnlyIff` | crates/graph/src/runner.rs:409-433 | an output stays in the slots alone iff no edge takes it and all pins it is for are Data pins; only an output no edge takes goes to the result stream |
| `Runner.WritesIff` | crates/graph/src/runner.rs:172-196 | an output writes a pin's slot iff its dispatch reaches the pin and the pin's kind keeps values |
| `Runner.YieldIff` | crates/graph/src/runner.rs:116-165 | the transform sees the pulled payload of a message that is still stored |
| `Runner.BlockWaits` | crates/graph/src/runner.rs:278-285 | a Block edge waits for room and never drops |
| `Runner.NodeRunner.ProcessOutput` | crates/graph/src/runner.rs:165-345 | destination, cache, store and refusal of one output; its report fits the edges, slots and store |
| `Runner.NodeRunner.ProcessOutputs` | crates/graph/src/runner.rs:165-360 | outputs in order up to the first send error; Output events are exactly the results sent |
| `Runner.NodeRunner.HandleRef` | crates/graph/src/runner.rs:93-398 | one Started, Output events, then one Completed or Failed; the received share is given back on every path |
| `Runner.NodeRunner.RunNode` | crates/graph/src/runner.rs:93-398 | every received reference is one bracket of events; the loop ends early exactly with a Failed; slots and store are the fold of all references given back and all outputs processed |
| `EdgeWindow.AverageBelowMax` | crates/graph/src/edge_window.rs:148-165 | the average queue depth of a summary does not exceed its maximum |
| `EdgeWindow.HotIff` | crates/graph/src/edge_window.rs:72-113 | the integer test is depth / capacity >= 0.8 for a positive capacity |
| `EdgeWindow.TotalsConserved` | crates/graph/src/edge_window.rs:72-180 | flushed summaries and the open window add up to every record and byte |
| `EdgeWindow.RecordKeeps` | crates/graph/src/edge_window.rs:72-113 | a record keeps summaries true and raises one alarm per window, exactly when 80% of a positive capacity is first reached |
| `EdgeWindow.FlushKeeps` | crates/graph/src/edge_window.rs:148-180 | a flush hands over the window's own summary and starts a fresh one |
| `EdgeWindow.EdgeWindow.Record` | crates/graph/src/edge_window.rs:72-113 | the record joins the open window, with its alarm and nothing else changed |
| `EdgeWindow.EdgeWindow.FlushIfReady` | crates/graph/src/edge_window.rs:129-139 | flushes exactly a non-empty window of at least its duration |
| `EdgeWindow.EdgeWindow.ForceFlush` | crates/graph/src/edge_window.rs:141-146 | nothing is pending afterwards |
| `Policy.DelayIsUnbounded` | crates/connections/src/policy.rs:110-117 | the saturating delay equals min(base * 2^k, max) over unbounded integers |
| `Policy.DelayIsMonotone` | crates/connections/src/policy.rs:110-117 | more attempts never wait less |
| `Policy.DelayIsBounded` | crates/connections/src/policy.rs:110-117 | every delay lies in [base, max] iff base does not exceed max |
| `Policy.PolicyIsUsable` | crates/connections/src/policy.rs:42-108 | any metadata gives positive limits within their widths |
| `Policy.EffectiveIsDeclared` | crates/connections/src/policy.rs:42-108 | each of the eleven effective values is the declared one, raised to its floor |
| `Policy.UndeclaredTakesDefault` | crates/connections/src/policy.rs:23-142 | a value that is missing, of another type, negative or too wide takes its default |
| `Policy.Validate` | crates/dsl-core/src/connection.rs:310-384 | no fault exactly for positive values with timeout > interval and max >= base |
| `Policy.ValidatedStaysOrdered` | crates/dsl-core/src/connection.rs:310-384 | clamping a validated declaration keeps base <= max and timeout > interval, so every delay lies in [base, max] |
| `Policy.UnvalidatedBaseAboveMax` | crates/connections/src/policy.rs:42-117 | metadata that was not validated can make every delay shorter than its base |
| `Health.ConnectionRecord.ApplyRuntimeFailure` | crates/connections/src/health.rs:193-240 | the whole record after a failure, and the returned wait is the retry deadline's distance |
| `Health.ConnectionRecord.ReconcileTimedState` | crates/connections/src/health.rs:112-180 | the whole record after a poll equals the composed deadline rules |
| `Health.ConnectionRecord.FinalizeRelease` | crates/connections/src/health.rs:20-76 | the whole record after a release, for each outcome and for an overdue lease |
| `ManagerPhases.ReleasePhase` | crates/connections/src/health.rs:20-76 | a release frees the connection; inside the timeout a success leaves it Healthy, an unmarked guard Degraded, a failure counts unless on record; a late one is a timeout |
| `ManagerPhases.HealthyReleaseIff` | crates/connections/src/health.rs:43-76 | in any run a release inside the timeout ends Healthy iff it was a success, and Degraded if the guard was not marked |
| `ManagerPhases.HealthySince` | crates/connections/src/health.rs:20-180 | a reachable healthy connection has been healthy since a success release, a connect success or a heartbeat during a lease |
| `ManagerPhases.OperationPhase` | crates/connections/src/manager/health_ops.rs:16-255 | the phase, lease and times each operation leaves |
| `ManagerPhases.PollPhase` | crates/connections/src/health.rs:112-180 | the phase a poll leaves, and when it counts as a change |
| `Health.ConnectionGuard.Drop` | crates/connections/src/guard.rs:58-66 | dropping a guard releases its record with the marked outcome |
| `Health.ReconcileIsPolled` | crates/connections/src/health.rs:112-180 | a poll is a function of phase and deadlines alone |
| `Health.PollingIsConfluent` | crates/connections/src/health.rs:112-180 | any list of polls leaves phase and deadlines as one poll at the latest time would |
| `Health.OpenUntilDeadline` | crates/connections/src/health.rs:130-141 | polling leaves CircuitOpen exactly when the deadline has come |
| `Manager.StepCounts` | crates/connections/src/manager/health_ops.rs:16-255 | which steps raise, clear or keep each counter |
| `Manager.CountersAreExact` | crates/connections/src/health.rs:193-240 | in every run the counters are the true counts cut at u32::MAX, the streak counting since the last success or reset |
| `Manager.OpensAtThreshold` | crates/connections/src/health.rs:207-222 | a failure opens the circuit exactly when the streak has reached the threshold |
| `ManagerSafety.StepShapes` | crates/connections/src/manager/mod.rs:290-380 | every operation keeps the shape of the record |
| `ManagerSafety.RunsAreWellShaped` | crates/connections/src/health.rs:20-240 | in every reachable state CircuitOpen, Timeout, Reconnecting and RateLimited tell the truth about streak and deadlines, and the counters are ordered |
| `ManagerSafety.ReconnectingWithoutRetryTime` | crates/connections/src/manager/mod.rs:352-366 | a borrowed connection can be Reconnecting with no retry time |
| `ManagerFailures.StepShows` | crates/connections/src/health.rs:78-91 | which steps take the phase out of the three that show a recorded failure, and which loans bring it back |
| `ManagerFailures.CountedTwiceIff` | crates/connections/src/health.rs:34-91 | over any steps between a recorded failure and the release with mark_failure, the failure is counted again iff one of them hides it and no later loan shows it again |
| `ManagerFailures.FreshFailureCounts` | crates/connections/src/health.rs:78-91 | a failure before the lease does not excuse it: a mark_failure release counts when nothing was recorded since the borrow time |
| `ManagerFailures.HeartbeatCountsTwice` | crates/connections/src/manager/health_ops.rs:66-76 | borrow, fail, heartbeat, release counts one failure twice |
| `ManagerFailures.LoanBacksOffIff` | crates/connections/src/manager/mod.rs:352-366 | a loan after failures is Reconnecting, with a retry time iff one was pending |
| `ManagerFailures.LoanWhileBackingOff` | crates/connections/src/manager/mod.rs:352-366 | borrowed while it backs off, a connection keeps its retry time iff the wait is not over |
| `ManagerFailures.ReconnectingBacksOffIff` | crates/connections/src/manager/mod.rs:290-380 | in any reachable state that is Reconnecting the retry time is set iff the last entry into the phase was a recorded failure or a loan while a retry was pending |
| `ManagerSafety.BreakerHolds` | crates/connections/src/health.rs:130-141 | before the deadline a step that does not clear the failures can only move it later |
| `ManagerSafety.NoLeaseWhileOpen` | crates/connections/src/manager/mod.rs:290-380 | over whole runs nobody borrows an open circuit before its deadline unless a success or a reset came in between |
| `ManagerSafety.StepExclusive` | crates/connections/src/manager/health_ops.rs:138-255 | a step keeps at most one guard per record in use iff it does not free a record whose guard is out |
| `ManagerSafety.RunsAreExclusive` | crates/connections/src/manager/mod.rs:290-380 | runs without such steps never have two guards out |
| `ManagerSafety.TwoGuards` | crates/connections/src/manager/health_ops.rs:157-178 | borrow, disconnect, borrow lends two guards |
| `ManagerSafety.LoansAreSpaced` | crates/connections/src/manager/mod.rs:253-279 | in every run the limiter's window is the tail of the loans, and max + 1 successive loans take longer than the window |
| `ManagerLoans.VerdictIff` | crates/connections/src/manager/mod.rs:290-350 | what an acquire answers, in the order of its checks, with the wait it reports |
| `ManagerLoans.AcquireEffect` | crates/connections/src/manager/mod.rs:352-380 | only a grant hands out a guard, and the phase it leaves |
| `ManagerLoans.GrantedIff` | crates/connections/src/manager/mod.rs:253-380 | in any run a connection is lent iff it is free and in order, no deadline or cooldown is pending and fewer than the allowed loans were made within the window |
| `ManagerLoans.LimitStartsCooldown` | crates/connections/src/manager/mod.rs:335-350 | a refusal by the limiter starts the cooldown |
| `ManagerLoans.NoLeaseDuringCooldown` | crates/connections/src/manager/mod.rs:325-350 | over whole runs nobody borrows during a cooldown unless a success or a reset lifted it |
| `DispatchLane.StepKeeps` | src-tauri/src/runtime.rs:227-284 | every step of producers and consumer keeps depth, order, conservation and try counts |
| `DispatchLane.DepthReport` | src-tauri/src/runtime.rs:382-395 | exact depth with Block; with RejectNewest never too low once pending increments are added, and, with none pending, too high by the number of decrements that found zero |
| `DispatchLane.BlockCounterStaysPositive` | src-tauri/src/runtime.rs:382-395 | with Block the zero clamp is never reached and no failed send wraps the counter |
| `DispatchLane.QuiescentConservation` | src-tauri/src/runtime.rs:227-284 | submitted = delivered + dead-lettered + refused by a closed channel + queued, first in first out |
| `DispatchLane.DeadLettersAreExhausted` | src-tauri/src/runtime.rs:458-498 | a dead letter was tried exactly max_retry_attempts + 1 times; each further try is counted once |
| `DispatchLane.DepthDrifts` | src-tauri/src/runtime.rs:252-257 | with RejectNewest an empty lane can report one message |
| `DispatchLane.RejectsOnlyWhenFull` | src-tauri/src/runtime.rs:252-283 | RejectNewest refuses and dead-letters exactly the envelopes that find the queue full |
| `DispatchLane.BlockNeverRejects` | src-tauri/src/runtime.rs:235-251 | Block waits for room; only a closed channel turns an envelope away |
| `DispatchLane.QueueFits` | src-tauri/src/runtime.rs:227-284 | in any run the queue stays within its capacity |
| `DispatchLane.Deliver` | src-tauri/src/runtime.rs:466-497 | the retry loop ends; it delivers iff one of the allowed attempts succeeds, and stops at the first |
| `DispatchLane.BackoffIsUnbounded` | src-tauri/src/runtime.rs:397-408 | the saturating backoff equals initial * 2^(attempt - 1), capped by the larger limit |
| `DispatchLane.BackoffIsMonotone` | src-tauri/src/runtime.rs:397-408 | more attempts never wait less, within [initial, max(max, initial)] |
| `BatchWriter.FlatIsStoredAndFailed` | crates/store/src/batch.rs:144-166 | batched items are those stored plus those of failed batches |
| `BatchWriter.BatchWriter.Enqueue` | crates/store/src/batch.rs:62-70 | queued behind everything accepted, or dropped and counted |
| `BatchWriter.BatchWriter.DoFlush` | crates/store/src/batch.rs:144-166 | hands over exactly the buffer; a failed batch adds its size to the drops |
| `BatchWriter.BatchWriter.Take` | crates/store/src/batch.rs:119-121 | a received item goes to the end of the buffer and nothing is lost |
| `BatchWriter.BatchWriter.Turn` | crates/store/src/batch.rs:98-142 | items are kept until the batch is full; a batch that is not full is handed over only by the timer or at the end; accepted = batches ++ buffer ++ channel after every turn |
| `BatchWriter.BatchWriter.Shutdown` | crates/store/src/batch.rs:73-79 | everything accepted was handed over in order, in full batches but the last; every item offered was stored or counted as dropped |
| `WorkflowSpec.ValidateWorkflowSpec` | crates/dsl-compiler/src/validate.rs:18-79 | no error exactly for a well-formed specification |
| `WorkflowSpec.DetermineInitialState` | crates/dsl-compiler/src/validate.rs:86-102 | "idle" if declared, the least name otherwise, none without states |
| `WorkflowSpec.LeastIsUnique` | crates/dsl-compiler/src/validate.rs:86-102 | the choice does not depend on the order of the state map |
| `StateMachine.EvaluationOrder` | crates/nodes-flow/src/state_machine.rs:205-243 | all transitions once, by descending priority, ties in configuration order |
| `StateMachine.FiresIff` | crates/nodes-flow/src/state_machine.rs:205-243 | a transition fires iff it applies and its guard holds on the scope threaded through earlier candidates, all of which evaluated to false |
| `StateMachine.EarlierOnesFailed` | crates/nodes-flow/src/state_machine.rs:205-243 | every applicable transition of higher rank was evaluated before and was false |
| `StateMachine.StateMachineNode.EvaluateTransitions` | crates/nodes-flow/src/state_machine.rs:205-243 | the loop over the sorted candidates chooses that transition |
| `StateMachine.CollectActionPorts` | crates/nodes-flow/src/state_machine.rs:96-121 | exactly the ports the configuration mentions, without duplicates |
| `StateMachine.RoutedPortsAreDeclared` | crates/nodes-flow/src/state_machine.rs:257-347 | every exit, transition and entry port of a fired transition is an output pin |
| `StateMachine.StateMachineNode.New` | crates/nodes-flow/src/state_machine.rs:84-152 | refuses a zero operation limit and scripts that do not compile; otherwise declares the pins |
| `StateMachine.RoutedPortsAre` | crates/nodes-flow/src/state_machine.rs:297-330 | the routed ports are the exit actions of the first configured state of the old name, the transition's action, and the entry actions of the first of the new name |
| `StateMachine.StateMachineNode.Transform` | crates/nodes-flow/src/state_machine.rs:275-347 | errors and no transition leave the state alone; a fired one moves it to its target and routes exactly those ports, in this order |
| `StateMachine.StateStaysDeclared` | crates/dsl-compiler/src/validate.rs:18-102 | with a validated specification the state is declared, and found, after any number of activations |
| `Template.LeftmostIff` | crates/nodes-io/src/capability_call.rs:135-153 | the searches find exactly the leftmost placeholders: first "${", then first '}' |
| `Template.SameRest` | crates/nodes-io/src/capability_call.rs:135-153 | what a text expands to from a position on depends on the rest of it only |
| `Template.ResolveTemplate` | crates/nodes-io/src/capability_call.rs:135-153 | in-place expansion with its moving start equals one left-to-right pass and never looks at inserted text again |
| `Template.ExpansionIs` | crates/nodes-io/src/capability_call.rs:155-172 | each name becomes the payload's field, or else the variable, or else the argument, or else stays as written |
| `Template.HiddenDoesNotMatter` | crates/nodes-io/src/capability_call.rs:155-172 | changing a variable or argument that something looked up earlier hides changes nothing |
| `Template.OneNameExpands` | crates/nodes-io/src/capability_call.rs:135-172 | a template that is one placeholder expands to the first of payload field, variable and argument |
| `Template.NothingResolved` | crates/nodes-io/src/capability_call.rs:155-172 | a template whose names are all unknown comes back unchanged |
| `Template.ExtractTemplateVariables` | crates/dsl-core/src/capability.rs:492-516 | exactly the trimmed, non-blank names that the expansion looks up, in order |
| `Template.ValidateTemplateExpr` | crates/dsl-core/src/capability.rs:451-490 | accepts exactly balanced braces with all scanned names declared |
| `Template.ValidatedResolvesIff` | crates/dsl-core/src/capability.rs:382-516 | for a validated template every placeholder is a declared name iff none is blank and each padded one is declared with its padding |
| `Template.PaddedNameStays` | crates/nodes-io/src/capability_call.rs:135-172 | "${ x }" passes validation and stays unexpanded |
| `Duration.DigitsRoundTrip` | crates/dsl-core/src/workflow.rs:126-142 | printed decimal digits read back as the number |
| `Duration.ParseIff` | crates/dsl-core/src/workflow.rs:83-122 | a text means d iff some unit's suffix ends it and number times unit is d: the order of the suffix tests does not matter |
| `Duration.UnitsMean` | crates/dsl-core/src/workflow.rs:83-122 | what a number with ms, s, m and h means, and when the product overflows |
| `Duration.PrintsLargestUnit` | crates/dsl-core/src/workflow.rs:126-142 | printing uses the largest of h, m, s, ms that divides the duration |
| `Duration.RoundTrip` | crates/dsl-core/src/workflow.rs:83-142 | parse(print(d)) = d for every u64 number of milliseconds |
| `Pin.CompatibleIff` | crates/core/src/pin.rs:176-196 | two pin types are compatible iff some concrete type may pass through both, at any array depth |
| `Pin.CompatibleIsSymmetric` | crates/core/src/pin.rs:176-196 | reflexive and symmetric |
| `Pin.ChainsIffConcrete` | crates/core/src/pin.rs:176-196 | compatibility carries over a middle type iff that type contains no Any |
| `Pin.KindsIff` | crates/core/src/pin.rs:102-112 | an output kind may feed an input kind iff it provides every delivery the input stands for |
| `PinValidator.BuildPinIndex` | crates/graph/src/pin_validator.rs:29-55 | indexes all pins iff ids are unique per direction; an error names a repeated id |
| `PinValidator.CheckEdge` | crates/graph/src/pin_validator.rs:69-120 | accepts an edge iff both pins exist and fit; an error names the first fault along it |
| `PinValidator.ValidatePinCompatibility` | crates/graph/src/pin_validator.rs:58-169 | Ok iff the graph is deployable, whatever the map order; an error is real and everything checked before it was in order |

## Left out

- Stopping a deployment: aborting tasks in the middle of a fan-out is not a step of the data plane.
- Tokio scheduling, timers, panics and timeouts inside nodes: a transform is a result or an error.
- Execution-event channels that lose events: event properties speak of attempted emissions.
- EdgeWindow.EdgeWindow.RecordDrop: counts drops only; drops recorded after a window's alarm are reset by the flush without being reported, as in the code.
- DataStore.ArenaDataStore.Read: `read_mut` is the same read; that its copy is independent holds of values by construction.
- EdgeWindow.EdgeWindow.DoFlush: the average is over real numbers; the rounding of f64 is not modelled.
- OutputCache.OutputCache.Write: waking the subscribers of a slot is not modelled.
- Counter wrap-around of u64 statistics and metrics, and of the i32 brace depth.
- Duration.ParseIff: a product above u64 is the outcome Overflow; the code multiplies unchecked, so a debug build panics and a release build wraps.
- BatchWriter.BatchWriter.Shutdown: dropping the writer without shutdown loses buffer and channel and is not modelled; the flush timer is a nondeterministic tick.
- Manager operations are functions on one connection's values, not methods on the shared map; registering, replacing and upserting connections and shared sessions are not modelled.
- Diagnosis texts and the purely observational timestamps and latencies of the health record.
- Date overflow of the UTC clock.
- Rhai evaluation, JSON and YAML parsing: guards are uninterpreted functions, JSON is a value type whose numbers are integers.
- Generation of port names by the compiler, workflow variables beyond the one state variable, and the pull of data inputs.
- Protocol nodes, SQLite tables, Tauri commands, the front end, tracing and file handling.
- Configuration views for AI, pin factories, unit conversions, connection-kind field checks: easy members.
