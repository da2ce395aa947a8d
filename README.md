# async-parallel-foreach, modelled in Dafny

`asyncParallelForEach(coll, parallelLimit, iteratee, eachMaxTry)` runs an
asynchronous iteratee over every element of an array, or every property of
an object. At most `parallelLimit` elements run at once, and `-1` means one
slot per element. Each element gets its own `TaskState`. That state counts
the attempts, holds the attempt limit (which the iteratee may raise through
`incrementMaxTry`), records every error thrown, and decides after each
failure whether to retry: the error filter must accept the error and the
trial must not be the last. Before a retry the element sleeps the configured
delay, either a constant or a function of the next attempt's number
(`BACK_OFF_RETRY.exponential()` gives 100, 200, 400, ... ms). The outcome of
each element is stored as `{ value }` or `{ error }` at its index or key. The
promise resolves with the whole container once the last element is stored.

The model has five modules, one file each:

- `TaskStates` (`task_state.dfy`) is the `TaskState` class: its fields, its
  constructor's option parsing and its methods. `Snapshot` is the part of
  the state the iteratee observes through its handle.
- `ParallelForEach` (`parallel_foreach.dfy`) covers the rest:
  - one attempt (`Attempt`), one turn of the retry loop (`Turn`) and one
    element's retry loop (`RunElement`), all imperative over a `TaskState`
    object. `Attempt` is proved against one step of the specification: the
    state it leaves is `Tried` or `Failed` of the old one. `Turn` is proved
    to advance the recursive specification `Attempts` by one step.
    `RunElement` is proved equal to `ElementRun`, which is `Attempts` from a
    fresh state;
  - the per-element callback;
  - the driver over an array (`ForEachArray`) and over an object
    (`ForEachObject`).
- `BackOffRetry` (`backoff.dfy`) is `BACK_OFF_RETRY.exponential()`.
- `RunProperties` (`run_properties.dfy`) gives closed-form facts about one
  element's retry loop:
  - how many invocations there are and what each one sees;
  - when the loop stops;
  - what is stored;
  - which errors are recorded;
  - how long the loop sleeps.
- `Scenarios` (`scenarios.dfy`) works through the repository's end-to-end
  tests. It shows that the model produces the trial traces, call counts,
  delays and results those tests expect.

Three things are parameters of the model:

- The iteratee is a deterministic function of the element, its index or
  key, and the state its handle shows. It returns a `Reply`: the total it
  passed to `incrementMaxTry` during the call, and whether it returned a
  value (`Ok`) or threw (`Err`). The raised limit takes effect when the call
  ends.
- The order in which elements complete is decided by the concurrency
  library. The model takes it as a list of the indices or keys. The results
  are proved to be the same for every order.
- In the source, the retry loop need not end when the iteratee keeps
  raising the limit. The model asks for a sufficient condition, per element:
  `StopsGranting(iteratee, item, key, horizon)`, meaning no positive
  increment for that element in any observed state after trial `horizon`.
  `horizon` is a ghost parameter. The drivers ask it of every element of
  the collection (`ArrayStopsGranting`, `ObjectStopsGranting`). "## Left
  out" says what this condition excludes.

Some consequences of the code that a reader may not expect, all modelled as
written:

- `exponential()` waits 100, 200, 400, 800 ms before attempts 2, 3, 4, 5.
  The code computes `50 * 2^(retryCount - 1)` with `retryCount` equal to
  `currentTrial + 1` (`ExponentialBeforeAttempt`).
- `times` is not validated. When it is zero or negative, each element is
  still attempted at least once, and exactly once when the iteratee does
  not raise the limit (`AllFailWithoutGrants`).
- `incrementMaxTry` accepts any increment, including a negative one.
- The promise resolves only from inside an element's callback. So an empty
  collection never resolves, and neither does a run whose limit leaves the
  scheduler no slot (0, or a negative limit other than `-1`).

## Model

| member | source | states |
|---|---|---|
| `TaskStates.ParseOptions` | src/TaskState.ts:4-16 | A bare number sets only the attempt limit. An options object sets the limit from `times`, and its `interval` and `errorFilter` replace the defaults (0 ms, accept every error) only when defined. |
| `TaskStates.TaskState.constructor` | src/TaskState.ts:18-30 | A new task state has the parsed configuration, trial 0, no recorded errors and is not finished. |
| `TaskStates.TaskState.IncrementMaxTry` | src/TaskState.ts:44-46 | Adds the increment (1 by default) to the limit and changes nothing else. |
| `TaskStates.TaskState.Try` | src/TaskState.ts:60-62 | Advances the trial counter by one and changes nothing else. |
| `TaskStates.TaskState.GotError` | src/TaskState.ts:64-66 | Appends the error to the recorded errors and changes nothing else. |
| `TaskStates.TaskState.Finish` | src/TaskState.ts:68-70 | Marks the state finished and changes nothing else. |
| `TaskStates.TaskState.IsFirstTrial` | src/TaskState.ts:32-34 | Holds on trial 1. In a run it holds on the element's first invocation and on no other (`RunProperties.ElementRunFirstTrial`). |
| `TaskStates.TaskState.IsLastTrial` | src/TaskState.ts:36-38 | Holds once the trial reaches the limit. In a run it decides whether a failure is retried (`RunProperties.LastTrialDecidesRetry`). |
| `TaskStates.TaskState.ShouldRetry` | src/TaskState.ts:48-50 | The retry decision, whose meaning `TaskStates.ShouldRetryIff` states. |
| `TaskStates.TaskState.DelayInterval` | src/TaskState.ts:52-58 | The delay before the next attempt: the interval function applied to `currentTrial + 1`, or the constant. In a run this is exactly what the loop sleeps (`RunProperties.AttemptsSleeps`). |
| `TaskStates.DelayBefore` | src/TaskState.ts:52-58 | The delay an interval gives before a numbered attempt, which `DelayInterval` and the loop use. |
| `TaskStates.ShouldRetryIff` | src/TaskState.ts:48-50 | A retry is allowed iff the filter accepts the error and the current trial is not the last (`isLastTrial` at lines 36-38). |
| `TaskStates.ShouldRetryWithDefaultFilter` | src/TaskState.ts:24 | With the default filter, an error is retried iff the trial is not the last. |
| `ParallelForEach.EffectiveLimit` | src/async-parallel-foreach.ts:18-20 | A limit of `-1` becomes the collection's length. Any other limit is passed on unchanged. |
| `ParallelForEach.Attempts` | src/async-parallel-foreach.ts:36-50 | The retry loop as a recursive specification from any state. `RunElement` is proved equal to it. Its behaviour is stated by the `RunProperties.Attempts*` lemmas. |
| `ParallelForEach.ElementRun` | src/async-parallel-foreach.ts:31-51 | One element's loop from a fresh `TaskState`. `RunElement` is proved equal to it. Its behaviour is stated by `RunProperties.ElementRunTrace` and `RunProperties.ElementRunStops`. |
| `ParallelForEach.Attempt` | src/async-parallel-foreach.ts:37-48 | One attempt: the observed state is the old one with the trial advanced, and the reply is the iteratee's on that state. The new state adds the grant, plus the error on failure. `retry` holds iff the attempt failed and the new state allows a retry. |
| `ParallelForEach.Turn` | src/async-parallel-foreach.ts:37-49 | One pass of the loop body. The trial counter goes up by one and `finished` is untouched. If the loop goes on, nothing is decided and the rest of the specification from the new state equals the rest from the old one. If it stops, the specification from the old state ends with this turn: `Value` when the call returned, otherwise the error it threw, in the new state. |
| `ParallelForEach.RunElement` | src/async-parallel-foreach.ts:31-51 | The imperative retry loop over a `TaskState` object yields exactly `ElementRun`: the recursive retry specification started from a fresh state. The task state it leaves is finished, and its view is the run's final state. |
| `ParallelForEach.ArrayCallback` | src/async-parallel-foreach.ts:29-63 | One element's callback: its run is `ElementRun`, its entry is written at its index, the counter goes up by one, and the results are handed over exactly when the counter reaches the length. |
| `ParallelForEach.ForEachArray` | src/async-parallel-foreach.ts:14-66 | For any completion order of the indices: the limit is `EffectiveLimit`; with no free slot nothing runs and nothing resolves; otherwise a non-empty array resolves with entry `i` equal to element `i`'s outcome (`ArrayResults`); an empty one never resolves; the iteratee calls are each element's run in completion order. |
| `ParallelForEach.ObjectCallback` | src/async-parallel-foreach.ts:29-63 | As `ArrayCallback`, with the entry stored under the property's key. |
| `ParallelForEach.ForEachObject` | src/async-parallel-foreach.ts:14-66 | For any completion order of the keys: with no free slot nothing runs and nothing resolves; otherwise a non-empty object resolves with exactly its keys, each mapped to that property's outcome (`ObjectResults`); an empty one never resolves; the calls are the runs in completion order. |
| `ParallelForEach.ArraySlotsComplete` | src/async-parallel-foreach.ts:59-61 | Once the counter reaches the length, every slot of the results array is filled, and with the element outcomes. This rests on `IndexOrderCovers`: `n` distinct indices below `n` cover all of them. |
| `ParallelForEach.ObjectSlotsComplete` | src/async-parallel-foreach.ts:59-61 | Once every key is done, the results object is the map of outcomes over exactly the collection's keys. |
| `RunProperties.AttemptsTrials` | src/async-parallel-foreach.ts:36-50 | From any state the loop invokes the iteratee at least once. The k-th new invocation observes trial `s.currentTrial + k + 1`. The final trial count includes every invocation, and the earlier invocations are kept as a prefix. |
| `RunProperties.AttemptsErrors` | src/async-parallel-foreach.ts:41-47 | Each failed invocation appends one error after those already recorded; only a final success adds none. A stored error is the last one recorded. |
| `RunProperties.AttemptsThrown` | src/async-parallel-foreach.ts:41-42 | The errors recorded from any state on are the ones the new invocations threw, in order. The j-th new recorded error comes from the j-th new invocation, which failed. |
| `RunProperties.AttemptsSeenErrors` | src/TaskState.ts:64-66 | Each invocation sees exactly the errors of the invocations before it. |
| `RunProperties.AttemptsSleeps` | src/async-parallel-foreach.ts:43-44 | The loop sleeps once between consecutive invocations, for `_getDelayInterval()` of the attempt about to be made. Earlier sleeps are kept as a prefix. |
| `RunProperties.AttemptsStop` | src/async-parallel-foreach.ts:36-50 | The loop stops at the first invocation that may not be retried. Every earlier invocation failed with an error that the filter accepts and that the limit, raised by its grant, allows. Each passes its raised limit on to the next. The stored entry is the last invocation's result. |
| `RunProperties.ElementRunTrace` | src/async-parallel-foreach.ts:31-51 | From a fresh state: invocation k sees trial k+1 and the errors of the k invocations before it. One error is recorded per failure, and a stored error is the last one. The loop sleeps `DelayBefore(interval, k+2)` before attempt k+2. |
| `RunProperties.ElementRunThrown` | src/async-parallel-foreach.ts:41-42 | From a fresh state, recorded error k is the error invocation k threw, and that invocation failed. Together with `ElementRunTrace`, invocation k sees exactly the errors the first k invocations threw. |
| `RunProperties.ElementRunStops` | src/async-parallel-foreach.ts:31-51 | From a fresh state: the first invocation sees the configured limit, and the loop stops exactly at the first invocation that may not be retried. Its result is stored. |
| `RunProperties.RejectedErrorEndsRun` | src/async-parallel-foreach.ts:43-47 | An error the filter rejects ends the loop, whatever attempts remain, and the element stores an error. |
| `RunProperties.NoGrantKeepsLimit` | src/TaskState.ts:44-46 | If the iteratee never calls `incrementMaxTry`, every invocation sees the configured limit. |
| `RunProperties.Attempted` | src/TaskState.ts:48-50 | The number of attempts an element gets when it never raises its limit: `times` when it is at least 1, otherwise 1, because the first attempt happens before any check. |
| `RunProperties.AllFailWithoutGrants` | src/async-parallel-foreach.ts:36-50 | If the limit is never raised and attempts 1 to `max(times, 1)` fail with accepted errors, the iteratee runs `max(times, 1)` times, records one error per attempt, and stores an error. What it would do on later trials does not matter. |
| `RunProperties.FirstSuccessAt` | src/async-parallel-foreach.ts:36-50 | If attempts 1 to `at-1` fail with accepted errors, attempt `at` (at most `times`) succeeds with `v`, and the limit is never raised, then the iteratee runs exactly `at` times and `Value(v)` is stored. |
| `RunProperties.ExponentialRunSleeps` | src/async-parallel-foreach.ts:76-81 | With `exponential()` as interval, the k-th sleep of a run lasts `100 * 2^k` ms. |
| `RunProperties.ElementRunFirstTrial` | src/TaskState.ts:32-34 | `isFirstTrial()` holds on an element's first invocation and on no other. |
| `RunProperties.LastTrialDecidesRetry` | src/TaskState.ts:36-50 | On the last trial, unless the iteratee raises the limit, the loop ends after this invocation. On any other trial, an error the filter accepts is retried, provided the limit was not lowered. |
| `RunProperties.RaisedLimitSeen` | src/TaskState.ts:44-46 | The iteratee calls `incrementMaxTry(g)` on the last of `times >= 1` trials. Invocations up to that trial then see `times`, and later ones see `times + g`. |
| `RunProperties.IncrementOnLastTrialRuns` | src/async-parallel-foreach.ts:36-50 | Every attempt fails with an accepted error, and `incrementMaxTry(g)` is called on the last of `times >= 1` trials. Then the iteratee runs `times + g` times, records one error per attempt, and the element stores an error. |
| `BackOffRetry.ExponentialBeforeAttempt` | src/async-parallel-foreach.ts:76-81 | `exponential()` waits 100 ms before attempt 2 and doubles for each later attempt. |
| `BackOffRetry.ExponentialDoubles` | src/async-parallel-foreach.ts:79 | Each exponential delay is twice the one before it. |
| `BackOffRetry.ExponentialBackoff` | src/async-parallel-foreach.ts:76-81 | The `exponentialBackoff` function. It has no contract of its own; its delays are the ones `ExponentialBeforeAttempt` and `ExponentialDoubles` state. |
| `BackOffRetry.Exponential` | src/async-parallel-foreach.ts:76-81 | The interval `exponential()` returns: a delay function of the attempt number, whose delays `ExponentialBeforeAttempt` states. |
| `Scenarios.TrialTestTraces` | test/TaskState.e2e.ts:15-46 | In the first TaskState test the observed trials are 1,2,3,1,2,3,1,2,3,4. `isFirstTrial` holds on the 1st, 4th and 7th invocations, and `isLastTrial` on the 3rd, 6th, 9th and 10th. |
| `Scenarios.TrialTestElementC` | test/TaskState.e2e.ts:23-27 | Element `c`, which raises its limit on its last trial, runs four times at limits 3, 3, 3, 4 and ends with a value. |
| `Scenarios.TrialTestResults` | test/TaskState.e2e.ts:15-35 | Every element of the first TaskState test stores a value. |
| `Scenarios.IncrementTestCalls` | test/TaskState.e2e.ts:66-83 | With `times: 3` and `incrementMaxTry(2)` on the last trial, the iteratee runs five times and the element stores the error. This is an instance of `RunProperties.IncrementOnLastTrialRuns`. |
| `Scenarios.ExponentialTestFailing` | test/async-parallel-foreach.e2e.ts:387-396 | With `times: 5` and `exponential()`, an always-failing element runs five times, sleeps 100, 200, 400 and 800 ms, and stores its error. |
| `Scenarios.ExponentialTestCalls` | test/async-parallel-foreach.e2e.ts:409-416 | In the exponential test the iteratee runs six times. Element 0 stores the error and element 1 stores its value `"b"`. |

## Left out

- Concurrency is not modelled. `eachOfLimit`'s scheduling, the interleaving
  of awaits and the `parallelLimit` slots are replaced by a completion order
  given as a parameter. Each element's invocations appear together in the
  call list, not interleaved with other elements' invocations.
- `ParallelForEach.ForEachArray`: with a limit below 1 the model starts no
  element and does not resolve. Whether the `async` library then stays
  silent or throws (which would reject the promise) is not modelled. Its
  source is not part of this model.
- `ParallelForEach.ForEachObject`: the same holds for a limit below 1 as for
  `ForEachArray`. Also, the results object is a `map`, so the order in which
  its keys were inserted (completion order) is not modelled.
- `ParallelForEach.ForEachArray`: results are proved only for iteratees with
  no state shared across elements. Each reply depends only on the element,
  its key and its own task state, whereas the source's iteratee may keep
  state across calls. The tests' `incremented` flag is therefore rendered
  per element, through the observed limit.
- `ParallelForEach.RunElement`: only elements satisfying
  `StopsGranting(iteratee, item, key, horizon)` are modelled. That predicate
  forbids a positive `incrementMaxTry` total for this element on any call
  whose trial number is above `horizon`, in every observed state. This
  includes states no run reaches, for example a trial with fewer recorded
  errors than earlier trials. The drivers ask it of each element of the
  collection with one `horizon`, which a finite collection can always pick
  as the largest of the elements' own. So the model excludes two kinds of
  iteratee:
  - those that raise the limit without end, for which the source loops
    forever;
  - those whose loop ends in the source but which would raise the limit in
    such an unreachable state. An example is one that raises it whenever no
    error is recorded and the trial is the last.
- `ParallelForEach.Attempt`: the error filter and a function interval are
  total in the model. In the source, a throw from either inside the `catch`
  block escapes before `callback()` and `doneCnt++`. That element is then
  never stored and the run never resolves.
- `ParallelForEach.Attempt`: the iteratee sees its handle as a read-only
  `Snapshot`, and can change the state only through `incrementMaxTry`.
  Writes to the public fields `currentTrial`, `failedReasons` or `finished`
  of `TaskState` are not modelled.
- Time is not modelled: `sleep`, `Date.now`, `startTime` and
  `timeElapsed()`. Sleeps are recorded as the list of their durations, so
  the timing assertions of the tests are not modelled.
- `BACK_OFF_RETRY.randomBetween` is left out, because it depends on
  `Math.random`. A random delay can still be supplied as any `PerTrial`
  function.
- Promises and exceptions become the `Ok`/`Err` result of a reply. A thrown
  `undefined` is not modelled: the source would store `{ value }` for it,
  because it tests `typeof error === 'undefined'`.
- JavaScript numbers become unbounded integers. Fractional, `NaN` and
  infinite limits, increments and delays are not modelled.
- Iterator collections (`IterableIterator<T>`) are not modelled. For them
  `collLength` is `Object.keys(coll).length`, which is 0, so the counter
  never equals it after an element completes and the promise never
  resolves. Only arrays and plain objects are modelled.
- `src/utils` (`sleep`) and the `async` library are not part of this model.
