# A verified model of the async-task-dispatcher `Queue`

This project models `Queue<T, R>` from `src/Queue.ts`: a work queue where producers `push` payloads, a worker turns each dispatched payload into one result or an array of results, and consumers `get` the results in buffer order. Without its locks and timers, a queue holds:

- `queue`: the pending tasks, first in, first out. Each task is a payload plus an optional per-task worker.
- `buff`: the result buffer, also first in, first out.
- `inWork`: the in-work counter.
- `afterPush`: whether a push is followed by a dispatch step. This is set only by the 'after-add' policy, which is the default.
- `liveTimers`: how many periodic timers are running. 'async-cycle-one' starts one; 'async-cycle-many' starts `groupSize`.
- `cleared`: the flag that `clear` raises.
- Fixed at construction: the default worker, the two size limits `queueSizeLimit` and `buffSizeLimit`, and the policy.

Modules:

- `Wrappers`: the `Option` type.
- `QueueTypes`: the records from `src/Task.ts`, `src/WorkerFn.ts` and `src/QueueConfig.ts`. A worker is a total function `T -> WorkerResult<R>`. `WorkerResult` is `Single(R)` or `Many(seq<R>)`, the value-or-array the source's worker returns.
- `QueueModel`: each operation as a function from the state before to the reported outcome and the state after. These are `PushStep`, `WorkStep`, `TickStep`, `GetStep`, `GetManyStep` and `ClearStep`. The module also has the invariants `Wellformed` and `Resolvable`.
- `QueueProperties`: lemmas about these functions.
- `AsyncQueue`: the class `Queue`. Its fields are the source's fields, and its methods change them step by step as the source does. Each method is proved to leave exactly the state that the matching step function computes, and to keep `Valid()`.

Blocking is modelled as an outcome, not as waiting:

- A push that would wait at a limit reports `Blocked` and changes nothing.
- A `get` on an empty buffer returns `None`.
- A `getMany` that runs out of results returns what it took so far, with `complete == false`. Those results are already removed from the buffer, just as they are held by the waiting call in the source.
- A timer firing is the explicit method `Tick`. It performs one dispatch step while a timer is running.

Where the code's behaviour may be unexpected, the model follows it:

- There are two separate limits, not one combined limit. A limit that is unset or 0 never blocks, because the code uses a truthiness test.
- A dispatch step raises `inWork` before it checks for an empty pending list. So every idle step, such as each firing of an 'async-cycle-one' timer on an empty queue, leaves `inWork` and `length` one higher. `WorkStepCases` and `WorkLength` state this.
- A task with no worker at dispatch time is removed and lost. `inWork` stays raised, and no failure entry goes into the buffer. Since `push` already refuses such a task, `Resolvable` proves that this case never happens in a reachable state.
- There are no failure results at all.
- A `workPolicy` key that is present but `undefined` overrides the 'after-add' default. This happens because the code spreads the given configuration over the defaults. Such a queue never dispatches.

## Model

| member | source | states |
|---|---|---|
| QueueModel.Initial | src/Queue.ts:28-52 | a new queue has empty pending list and buffer, counter 0 and flag down; dispatch after push is hooked in exactly for an omitted policy or 'after-add'; timers run exactly for 'async-cycle-one' or a positive-size 'async-cycle-many'; never both |
| QueueModel.PushEach | src/Queue.ts:128-131 | an array push never reports a missing worker, places at most its length, and reports success exactly when it placed every payload |
| QueueProperties.InitialState | src/Queue.ts:28-41 | a new queue satisfies both invariants and has length 0; an omitted policy means 'after-add'; an explicit `undefined` policy arms nothing; the no-argument configuration is 'after-add' with no worker |
| QueueProperties.PushRefusedIffNoWorker | src/Queue.ts:124-126 | push fails with a missing worker exactly when neither an override nor a default worker exists, and then the state is unchanged |
| QueueProperties.PushOneGate | src/Queue.ts:139-150 | a single push blocks with no change exactly when a limit is reached; otherwise it appends exactly `Task(x, w)` at the tail, with buffer and counter unchanged when no dispatch follows; with each limit unset or 0 a single push always succeeds |
| QueueProperties.AfterAddDispatchesHead | src/Queue.ts:147-151 | under 'after-add' the step after a push dispatches the current head of the pending list; in a consistent queue that list is empty before the push, so the head is the pushed task and the list is empty again afterwards |
| QueueProperties.AfterAddDispatchesPushed | src/Queue.ts:147-151 | in a consistent 'after-add' queue a push buffers the pushed payload's output at once, computed by the override when one is given |
| QueueProperties.BatchIsOneByOne | src/Queue.ts:128-131 | pushing an array equals single pushes of its payloads in array order with the same override, stopping at the first that blocks |
| QueueProperties.PushWithoutDispatchAppends | src/Queue.ts:147-150 | without dispatch after push, an array push appends exactly the tasks of the payloads it placed and changes nothing else |
| QueueProperties.NoLimitsPlacesAll | src/Queue.ts:139-142 | with each limit unset or 0, an array push places every payload |
| QueueProperties.QueueLimitPlacement | src/Queue.ts:139-146 | with a positive pending-list limit L, an array push places payloads only while the list is strictly shorter than L |
| QueueProperties.PushAfterClearOnlyAppends | src/Queue.ts:154-158 | after `clear` a push only appends tasks: buffer and counter stay, nothing is dispatched |
| QueueProperties.AfterAddBuffersInOrder | src/Queue.ts:49-51 | under 'after-add' with no limits, an array push buffers its payloads' outputs in submission order and leaves the pending list empty and the counter unchanged |
| QueueProperties.WorkStepCases | src/Queue.ts:72-93 | a dispatch step raises the counter when idle, loses the head when it has no worker, and otherwise removes exactly the head and appends its output in order, override first, with no net change to the counter |
| QueueProperties.WorkLength | src/Queue.ts:73-88 | a dispatch step moves `length` by +1 when idle, 0 when the task is lost, and by the output size minus 1 otherwise |
| QueueProperties.ResolvableNeverLoses | src/Queue.ts:77-80 | when every pending task has a worker, no dispatch step loses a task |
| QueueProperties.TickIsWorkStep | src/Queue.ts:54-64 | a timer firing is one dispatch step while a timer runs, and does nothing after `clear` |
| QueueProperties.TicksInOrder | src/Queue.ts:54-88 | while a timer runs, k timer firings take the first k pending tasks and buffer their outputs in queue order, with the counter ending where it began |
| QueueProperties.ProduceTasks | src/Queue.ts:77-88 | dispatching the tasks of a push produces the chosen worker's outputs for the payloads in order |
| QueueProperties.GetStepCases | src/Queue.ts:103-115 | `get` returns and removes exactly the head of a non-empty buffer, lowering `length` by 1; on an empty buffer it reports waiting with no change |
| QueueProperties.GetManyTakesPrefix | src/Queue.ts:95-101 | `getMany(n)` returns the first n buffered results in buffer order and removes them; with fewer buffered it takes all and reports incompletion |
| QueueProperties.GetManyLength | src/Queue.ts:95-101 | `getMany` lowers `length` by the number of results it returns |
| QueueProperties.ClearProperties | src/Queue.ts:154-158 | `clear` raises the flag, stops timers and dispatch after push, leaves pending list, buffer and counter alone, and is idempotent |
| QueueProperties.WorkPreserves | src/Queue.ts:72-93 | a dispatch step keeps both invariants |
| QueueProperties.PushEachPreserves | src/Queue.ts:128-151 | an array push keeps both invariants |
| QueueProperties.PushPreserves | src/Queue.ts:123-152 | every push keeps both invariants, so no pending task ever lacks a worker |
| QueueProperties.GetManyPreserves | src/Queue.ts:95-101 | `getMany` keeps both invariants |
| QueueProperties.OtherStepsPreserve | src/Queue.ts:54-158 | `get`, `clear` and a timer firing keep both invariants |
| QueueProperties.CycleOneRoundTrip | src/Queue.spec.ts:21-30 | 'async-cycle-one': pushing payloads, one timer firing (`TickStep`) per payload, then `getMany` returns the outputs in submission order and `length` is back to 0 |
| QueueProperties.AfterAddRoundTrip | src/Queue.spec.ts:33-49 | 'after-add': pushing payloads, with or without an override, then `getMany` returns the outputs in submission order and `length` is back to 0 |
| AsyncQueue.Queue.constructor | src/Queue.ts:28-52 | the fields are the configuration's options and the state is `Initial(config)`, which is valid |
| AsyncQueue.Queue.Work | src/Queue.ts:72-93 | `_work` leaves exactly the state and outcome of `WorkStep` and keeps `Valid()` |
| AsyncQueue.Queue.Tick | src/Queue.ts:54-60 | a timer callback leaves exactly the state and outcome of `TickStep` and keeps `Valid()` |
| AsyncQueue.Queue.Get | src/Queue.ts:103-121 | `get` leaves exactly the state and result of `GetStep` and keeps `Valid()` |
| AsyncQueue.Queue.GetMany | src/Queue.ts:95-101 | the counting loop of `getMany` returns and leaves exactly what `GetManyStep` gives and keeps `Valid()` |
| AsyncQueue.Queue.Push | src/Queue.ts:123-152 | `push` refuses, fans out, gates and appends exactly as `PushStep` gives and keeps `Valid()` |
| AsyncQueue.Queue.Clear | src/Queue.ts:154-158 | `clear` leaves exactly `ClearStep` of the old state and keeps `Valid()` |
| AsyncQueue.Queue.Length | src/Queue.ts:160-162 | `length` is size plus buff plus working, which is `TotalLength` of the state, never below size plus buff in a valid queue |
| AsyncQueue.Queue.Working | src/Queue.ts:164-166 | `working` is never negative in a valid queue |
| AsyncQueue.Queue.Size | src/Queue.ts:168-170 | `size` is 0 whenever 'after-add' dispatch is hooked in |
| AsyncQueue.Queue.Buff | src/Queue.ts:172-174 | `buff` is 0 exactly when a `get` would wait |
| AsyncQueue.Queue.Clearead | src/Queue.ts:176-178 | once `clearead` is true, no timer runs and no push dispatches |

## Left out

- The mutexes `_mu`, `_musl`, `_mug`, `_mugw` and `_muiw`, and the wake-up of waiting callers. This is concurrency plumbing. A waiting call is modelled as a `Blocked` or `None` outcome or an incomplete `getMany`, and its resumption is not modelled. In the source, a woken push appends without checking the limits again. A woken `get` retries.
- Interleavings of overlapping dispatch steps, producers and consumers. All operations are atomic here. In particular, the source raises and lowers `inWork` through an asynchronously acquired lock, so observers may see the change late. The model applies it at once.
- Timer periods: the `interval` option and the default of 100. A timer firing is an explicit `Tick`, with no notion of time. Under `clear`, `_intervals` keeps its entries, but the model only counts the timers that are still running.
- Promises and asynchronous workers. A worker is a total synchronous function, and its whole result is buffered within the dispatch step.
- Workers that throw or reject. The source never catches this, so nothing reaches the buffer. The state the source would then keep (task removed, counter raised) is not modelled.
- Nested arrays. With `Item` being `One` or `Batch`, a payload cannot itself be an array. A JavaScript array payload inside a pushed array would be fanned out again.
- Worker results that are themselves arrays of the result type. The tag `Single`/`Many` decides what is spread.
- A buffered result that is `undefined`. The source's `get` treats it as an empty buffer and drops it.
- Non-integer or `NaN` numbers for the limits, `groupSize` and `getMany`'s count. The model uses `int`.
- Policy strings other than the three names. These behave as an `undefined` policy does.
- The async execution of `push`. For an array, the call returns at once. `Submitted.placed` counts the payloads appended before the first one that would wait, and the remaining payloads would wait in order behind it.
