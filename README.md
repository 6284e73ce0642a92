# Action pool: a verified model of its admission controller

`ActionPool` runs asynchronous actions with bounded concurrency. Callers
`enqueue` actions. The pool keeps a FIFO `queue` of waiting tasks, a `running`
set of started tasks and a positive `limit`. After every enqueue, and after
every settlement of a running task (`_remove`), it runs one admission step
(`_check`). That step starts the head of the queue when a slot is free.

The model has two layers:

- `Admission` (admission.dfy) is the controller as a state machine on values.
  A `PoolState` holds the limit, the queue and the running set. It also holds
  three history logs: the tasks enqueued, in order; the tasks started, in
  order; and the set of done (settled) tasks. The transitions are `AdmitStep`
  (`_check`), `EnqueueStep` (append, then one step) and `RemoveStep` (delete,
  then one step). `Valid` is the pool's invariant:
  - at most `limit` tasks run;
  - the started log followed by the queue equals the enqueue log (FIFO);
  - no task is enqueued twice;
  - every started task is running or done, never both;
  - a task waits only while every slot is taken (work conservation).

  The lemmas prove that every transition keeps `Valid`. They also cover what
  each transition does, conservation of tasks, runs of events from a fresh
  pool, draining, and the unit-test scenario.
- `Pool` (action_pool.dfy) is the class `ActionPool`. Its fields `queue`,
  `running` and `limit` change in place. Ghost fields hold the history logs.
  Every method is proved against the matching `Admission` transition and keeps
  `Valid()`. A task (the source's "delayed promise") is a `Task` object. A new
  one is allocated for each successful `enqueue`, so tasks are told apart by
  identity.

`JsValues` models the JavaScript values that reach the argument checks, along
with `typeof`. `Wrappers` holds the `Result` type. A thrown `TypeError` becomes
`Failure(TypeError(message))`, and the two messages are the source's strings.

Two points about the code itself:

- `_check` is a single `if`, not a loop. `Admission.AdmitRestores` proves that
  one step equals admission run to completion (`Admission.AdmitAll`) in every
  state in which `_check` is entered. That holds because `enqueue` and
  `_remove` each change the state by at most one task or one slot before
  calling it.
- The constructor's error message says "positive finite number", but
  src/ActionPool.js:63 only tests `typeof limit !== 'number'` and
  `limit <= 0`. So it accepts `Infinity` and fractional numbers, and also
  `NaN`, because `NaN <= 0` is false. The model keeps that test, on integers
  (see "Left out").

## Model

| member | source | states |
|---|---|---|
| `Pool.CheckLimit` | src/ActionPool.js:62-64 | succeeds exactly when the limit is a number greater than zero and then yields that number; otherwise fails with the constructor's TypeError message |
| `Pool.ActionPool.Create` | src/ActionPool.js:62-69 | fails with the TypeError exactly when the limit is not a positive number; otherwise a fresh pool in its invariant, with empty queue and running set and the limit stored unchanged |
| `Pool.ActionPool.constructor` | src/ActionPool.js:66-68 | the new pool is in its invariant and equals the fresh state of the state machine |
| `Pool.Task.constructor` | src/ActionPool.js:16-27 | a task keeps the action it wraps |
| `Pool.MakeDelayedPromise` | src/ActionPool.js:13-27 | fails with the action TypeError exactly when the action is not a function; otherwise a fresh task holding that action |
| `Pool.ActionPool.Queued` | src/ActionPool.js:37-39 | the queue length, readable in any state; in the invariant, when positive, every slot is taken |
| `Pool.ActionPool.Running` | src/ActionPool.js:45-47 | the size of the running set, never above the limit, also in the state `_check` is entered in |
| `Pool.ActionPool.Limit` | src/ActionPool.js:53-55 | the stored limit, always positive, also in the state `_check` is entered in |
| `Pool.ActionPool.Enqueue` | src/ActionPool.js:77-87 | a non-function action fails with the TypeError and leaves the whole object unchanged; otherwise a fresh task is appended and one admission step runs: the task starts at once if a slot was free (the queue was then empty), else it waits at the tail; the invariant is kept |
| `Pool.ActionPool.Check` | src/ActionPool.js:93-101 | reading the three getters as the source does, and entered with at most one task startable, it starts the head of the queue iff the queue is non-empty and a slot is free, leaves the rest of the queue in order, and restores the invariant |
| `Pool.ActionPool.Remove` | src/ActionPool.js:108-111 | the settled task leaves the running set; the head of the queue, if any, takes its slot; the invariant is kept |
| `Pool.EnqueueWorks` | tests/unit/ActionPoolTests.js:15-27 | with limit 2 and three actions, two run and one waits; when the second settles the third is running; after all three settle nothing is queued or running |
| `Pool.StartTwo` | tests/unit/ActionPoolTests.js:17-21 | with limit 2, the first two enqueued actions both run at once and nothing waits |
| `Pool.SettleSecond` | tests/unit/ActionPoolTests.js:21-22 | when the second task settles, the waiting third task takes its slot |
| `Pool.SettleThirdThenFirst` | tests/unit/ActionPoolTests.js:20-26 | when the third and then the first task settle, the pool is empty |
| `Admission.Init` | src/ActionPool.js:66-68 | the fresh state stores the limit with nothing queued or running, and is valid when the limit is positive |
| `Admission.AdmitStep` | src/ActionPool.js:93-98 | one admission step (`_check`) never changes the limit, the enqueue log or the done set |
| `Admission.AdmitStepMoves` | src/ActionPool.js:93-98 | one admission step loses and reorders nothing (started log followed by queue is unchanged), starts at most one task, starts one iff a task waits and a slot is free, and the started task (the old head) joins the running set |
| `Admission.AdmitAll` | src/ActionPool.js:94 | the loop form of admission, kept as a reference: it ends with an empty queue or a full pool, and keeps the FIFO order |
| `Admission.Push` | src/ActionPool.js:82 | the first half of `enqueue`: the task goes to the tail of the queue and of the enqueue log; the limit, the running set, the started log and the done set are unchanged |
| `Admission.EnqueueStep` | src/ActionPool.js:77-87 | `enqueue` keeps the limit and the done set and logs exactly the new task, last |
| `Admission.Delete` | src/ActionPool.js:109 | the first half of `_remove`: the task is no longer running and is done; the limit, the queue, the enqueue log and the started log are unchanged |
| `Admission.RemoveStep` | src/ActionPool.js:108-111 | `_remove` keeps the limit and the enqueue log and adds exactly the settled task to the done set |
| `Admission.HeadNotStarted` | src/ActionPool.js:95-97 | the head of the queue has never been started, so it is neither running nor done, and adding it grows the running set by one |
| `Admission.StartHeadOrder` | src/ActionPool.js:95-97 | starting the head of the queue keeps the started log followed by the queue unchanged |
| `Admission.StartHeadSets` | src/ActionPool.js:95-97 | in a consistent state, starting the head keeps every started task running or done and never both, and grows the running set by exactly one |
| `Admission.StartHeadConsistent` | src/ActionPool.js:93-98 | in a consistent state with a free slot and a waiting task, the step keeps the state consistent and grows the running set by one |
| `Admission.AdmitRestores` | src/ActionPool.js:93-101 | from a consistent state with at most one task startable, one step restores the full invariant, and it equals the loop form of admission |
| `Admission.PushReady` | src/ActionPool.js:82-84 | appending a fresh task to a valid pool leaves a consistent state with at most one task startable |
| `Admission.EnqueuePreserves` | src/ActionPool.js:77-87 | enqueueing a fresh task keeps the invariant |
| `Admission.EnqueueEffect` | src/ActionPool.js:80-84 | after enqueue, either the slot was free, the queue was empty and the new task runs; or the task waits at the tail and the running set is unchanged |
| `Admission.DeleteReady` | src/ActionPool.js:108-110 | deleting a running task from a valid pool leaves a consistent state with at most one task startable |
| `Admission.RemovePreserves` | src/ActionPool.js:108-111 | settling a running task keeps the invariant |
| `Admission.RemoveEffect` | src/ActionPool.js:108-111 | after a settlement the task no longer runs; if a task waited, the old head now runs and the pool stays full, otherwise the running set shrinks by one; waiting plus running drops by exactly one |
| `Admission.Conservation` | src/ActionPool.js:82-97 | every enqueued task is in exactly one of queue, running or done, and nothing else is in any of them; no task is started twice and none is queued twice |
| `Admission.NoWaitingWithinLimit` | src/ActionPool.js:93-98 | when the limit is at least the number of tasks ever enqueued, nothing waits and every task has started, in enqueue order |
| `Admission.Quiescent` | src/ActionPool.js:108-111 | a valid pool with nothing running has nothing queued, and every task ever enqueued is done |
| `Admission.ApplyPreserves` | src/ActionPool.js:77-111 | any enabled event (an enqueue of a fresh task, or the settlement of a running one) keeps the invariant |
| `Admission.ApplyLogs` | src/ActionPool.js:77-111 | one event keeps the limit, extends the enqueue log by exactly the task it submits, and the done set by exactly the task it settles |
| `Admission.RunPreserves` | src/ActionPool.js:77-111 | every legal sequence of events keeps the invariant |
| `Admission.RunEnqueued` | src/ActionPool.js:82 | a legal run keeps the limit and appends exactly the submitted tasks to the enqueue log, in submission order |
| `Admission.RunDone` | src/ActionPool.js:108-109 | a legal run adds exactly the settled tasks to the done set |
| `Admission.FifoFromInit` | src/ActionPool.js:93-98 | on every legal run from a fresh pool: at most `limit` tasks run, the started tasks are a prefix of the submitted ones (the k-th to start is the k-th enqueued), none starts twice, and the done tasks are exactly the settled ones |
| `Admission.Drain` | src/ActionPool.js:99-110 | from any valid state there is an order of settlements that drains the pool: a legal run of exactly waiting-plus-running settlements, with no new submissions, after which nothing waits or runs and every enqueued task is done |
| `Admission.SettleShrinks` | src/ActionPool.js:108-111 | one settlement of a running task keeps the invariant and lowers waiting plus running by exactly one |
| `Admission.SettleRunShrinks` | src/ActionPool.js:108-111 | in any legal run of settlements, in any order, waiting plus running drops by exactly one per settlement |
| `Admission.SettlesSubmitNothing` | src/ActionPool.js:108-111 | a run made only of settlements enqueues no task |
| `Admission.DrainAnyOrder` | src/ActionPool.js:99-111 | every legal run of as many settlements as there are waiting and running tasks, in any order, leaves nothing waiting or running and every task ever enqueued done |
| `Admission.ScenarioTwoSlots` | tests/unit/ActionPoolTests.js:15-27 | limit 2, tasks 1, 2, 3: tasks 1 and 2 start and 3 waits; settling 2 starts 3 at once; settling 3 and then 1 leaves all three done, started in order 1, 2, 3, with nothing queued or running |
| `Admission.ScenarioEnqueues` | tests/unit/ActionPoolTests.js:17-22 | the three enqueues give running {1, 2} and queue [3] |
| `Admission.ScenarioFirstEnqueue` | tests/unit/ActionPoolTests.js:20 | the first task starts at once |
| `Admission.ScenarioSecondEnqueue` | tests/unit/ActionPoolTests.js:21 | the second task starts at once |
| `Admission.ScenarioThirdEnqueue` | tests/unit/ActionPoolTests.js:22 | the third task waits, since both slots are taken |
| `Admission.ScenarioSecondSettles` | tests/unit/ActionPoolTests.js:21-22 | the second task's settlement hands its slot to the third |
| `Admission.ScenarioThirdSettles` | tests/unit/ActionPoolTests.js:22 | the third task's settlement leaves only the first running |
| `Admission.ScenarioFirstSettles` | tests/unit/ActionPoolTests.js:20 | the first task's settlement empties the pool and all three tasks are done |

## Left out

- Promise machinery is not modelled. This covers the deferred `resolve`/`reject` pair, the `run` property on the promise, and forwarding the action's outcome to the caller's promise (src/ActionPool.js:16-27, 99). Settlement is the external event `Remove(task)` (`Settle` in `Admission`), allowed only for a running task. The source's only caller of `_remove` is that task's settlement callback.
- Success and failure of an action are not told apart. Both lead to `_remove`, and the pool's state does not depend on which one happened.
- Actions that throw synchronously, or that return something other than a promise, are not modelled. The code adds the task to `running` before it calls `run()`, so its behaviour on that path is unspecified.
- Pool.CheckLimit: does not model fractional, infinite or NaN limits, because numbers are modelled as integers. The code's test `typeof limit !== 'number' || limit <= 0` is kept as written.
- Pool.ActionPool.Create: takes the `limit` property directly. Destructuring the options object (`{ limit } = {}`) only means that a missing option is `Undefined`, which the model covers. Passing `null` as the options, which throws during destructuring, is not modelled.
- Pool.ActionPool.Remove: requires the task to be running. A `Set.delete` of a task that is not running would do nothing, but the source never makes such a call.
- Timing, the event loop and stack depth are not modelled: the real delays and the 100,000-task test (tests/unit/ActionPoolTests.js:29-38). The model fixes only the order of events, not when they happen.
- The `Symbol`-keyed private fields (src/ActionPool.js:3-5) are ordinary fields here.
- `enqueue` returns the caller's promise. Here `Enqueue` returns the `Task` that stands for it.
