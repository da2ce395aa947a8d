/**
 * `asyncParallelForEach`: every element of an array or of an object's keys is
 * handed to a user iteratee, retried under its own TaskState until it succeeds
 * or may no longer be retried, and its outcome is stored in a results container
 * keyed like the input. The run resolves when the last element is stored.
 *
 * The iteratee is a deterministic oracle: given the element, its index or key
 * and the state its handle shows, it says how much it raised the attempt limit
 * during the call and whether it returned a value or threw an error. The order
 * in which elements complete, which the concurrency library decides, is a
 * parameter.
 */
module ParallelForEach {
  import opened TaskStates

  /** How one invocation of the iteratee ends: a returned value or a thrown error. */
  datatype Result<V, E> = Ok(value: V) | Err(error: E)

  /** One invocation: the total it passed to `incrementMaxTry`, and its result. */
  datatype Reply<V, E> = Reply(grant: int, result: Result<V, E>)

  type Iteratee<!T, !K, V, !E> = (T, K, Snapshot<E>) -> Reply<V, E>

  /** One entry of the results container: `{ value }` or `{ error }`. */
  datatype Entry<V, E> = Value(value: V) | Error(error: E)

  /** One element's complete retry loop: its stored entry, its task state at
      the end, the delays slept between attempts, and the state each
      invocation of the iteratee observed, in order. */
  datatype Run<V, E> = Run(entry: Entry<V, E>, final: Snapshot<E>, sleeps: seq<int>, seen: seq<Snapshot<E>>)

  /** One invocation of the iteratee during a whole run. */
  datatype Invocation<K, E> = Invocation(key: K, state: Snapshot<E>)

  /** The iteratee raises no attempt limit on element `item` (at `key`) after
      its `horizon`-th attempt; without this the source's loop need not
      terminate. */
  ghost predicate StopsGranting<T, K, V, E(!new)>(iteratee: Iteratee<T, K, V, E>, item: T, key: K, horizon: nat)
  {
    forall s: Snapshot<E> :: s.currentTrial > horizon ==> iteratee(item, key, s).grant <= 0
  }

  /** Every element of an array has a horizon of `horizon`. */
  ghost predicate ArrayStopsGranting<T, V, E(!new)>(coll: seq<T>, iteratee: Iteratee<T, int, V, E>, horizon: nat)
  {
    forall i :: 0 <= i < |coll| ==> StopsGranting(iteratee, coll[i], i, horizon)
  }

  /** Every property of an object has a horizon of `horizon`. */
  ghost predicate ObjectStopsGranting<K, T, V, E(!new)>(coll: map<K, T>, iteratee: Iteratee<T, K, V, E>, horizon: nat)
  {
    forall k :: k in coll ==> StopsGranting(iteratee, coll[k], k, horizon)
  }

  /** Whether the attempt that observed `tried` is followed by another one. */
  ghost predicate Retries<T(!new), K(!new), V, E(!new)>(iteratee: Iteratee<T, K, V, E>, item: T, key: K, policy: Policy<E>, tried: Snapshot<E>)
  {
    var reply := iteratee(item, key, tried);
    reply.result.Err? && tried.(maxTry := tried.maxTry + reply.grant).AllowsRetry(policy.errorFilter, reply.result.error)
  }

  function EntryOf<V, E>(result: Result<V, E>): Entry<V, E>
  {
    match result
    case Ok(v) => Value(v)
    case Err(e) => Error(e)
  }

  /** The retry loop from state `s`, having slept `sleeps` and made the
      invocations `seen` so far. */
  ghost function Attempts<T(!new), K(!new), V, E(!new)>(iteratee: Iteratee<T, K, V, E>, item: T, key: K, policy: Policy<E>, horizon: nat,
                                      s: Snapshot<E>, sleeps: seq<int>, seen: seq<Snapshot<E>>): Run<V, E>
    requires StopsGranting(iteratee, item, key, horizon)
    decreases if s.currentTrial < horizon then horizon - s.currentTrial else 0, s.maxTry - s.currentTrial
  {
    var tried := s.(currentTrial := s.currentTrial + 1);
    var reply := iteratee(item, key, tried);
    var granted := tried.(maxTry := tried.maxTry + reply.grant);
    match reply.result
    case Ok(v) => Run(Value(v), granted, sleeps, seen + [tried])
    case Err(e) =>
      var failed := granted.(failedReasons := granted.failedReasons + [e]);
      if failed.AllowsRetry(policy.errorFilter, e) then
        Attempts(iteratee, item, key, policy, horizon, failed,
                 sleeps + [DelayBefore(policy.interval, failed.currentTrial + 1)], seen + [tried])
      else
        Run(Error(e), failed, sleeps, seen + [tried])
  }

  /** The state an attempt observes: one more trial than before it. */
  function Tried<E>(s: Snapshot<E>): Snapshot<E>
  {
    s.(currentTrial := s.currentTrial + 1)
  }

  /** The state after a failed attempt that observed `tried`: its grant and its error recorded. */
  function Failed<E>(tried: Snapshot<E>, grant: int, error: E): Snapshot<E>
  {
    tried.(maxTry := tried.maxTry + grant, failedReasons := tried.failedReasons + [error])
  }

  /** The loop ends with a value when the attempt succeeds. */
  lemma AttemptsSucceeds<T(!new), K(!new), V, E(!new)>(iteratee: Iteratee<T, K, V, E>, item: T, key: K, policy: Policy<E>, horizon: nat,
                                                       s: Snapshot<E>, sleeps: seq<int>, seen: seq<Snapshot<E>>, v: V)
    requires StopsGranting(iteratee, item, key, horizon)
    requires iteratee(item, key, Tried(s)).result == Ok(v)
    ensures Attempts(iteratee, item, key, policy, horizon, s, sleeps, seen)
            == Run(Value(v), Tried(s).(maxTry := Tried(s).maxTry + iteratee(item, key, Tried(s)).grant), sleeps, seen + [Tried(s)])
  {
  }

  /** The loop goes on after a failure the filter and the limit allow. */
  lemma AttemptsRetries<T(!new), K(!new), V, E(!new)>(iteratee: Iteratee<T, K, V, E>, item: T, key: K, policy: Policy<E>, horizon: nat,
                                                      s: Snapshot<E>, sleeps: seq<int>, seen: seq<Snapshot<E>>, e: E)
    requires StopsGranting(iteratee, item, key, horizon)
    requires iteratee(item, key, Tried(s)).result == Err(e)
    requires Failed(Tried(s), iteratee(item, key, Tried(s)).grant, e).AllowsRetry(policy.errorFilter, e)
    ensures var failed := Failed(Tried(s), iteratee(item, key, Tried(s)).grant, e);
            Attempts(iteratee, item, key, policy, horizon, s, sleeps, seen)
            == Attempts(iteratee, item, key, policy, horizon, failed,
                        sleeps + [DelayBefore(policy.interval, failed.currentTrial + 1)], seen + [Tried(s)])
  {
  }

  /** The loop ends with the error after a failure the filter or the limit refuses. */
  lemma AttemptsGivesUp<T(!new), K(!new), V, E(!new)>(iteratee: Iteratee<T, K, V, E>, item: T, key: K, policy: Policy<E>, horizon: nat,
                                                      s: Snapshot<E>, sleeps: seq<int>, seen: seq<Snapshot<E>>, e: E)
    requires StopsGranting(iteratee, item, key, horizon)
    requires iteratee(item, key, Tried(s)).result == Err(e)
    requires !Failed(Tried(s), iteratee(item, key, Tried(s)).grant, e).AllowsRetry(policy.errorFilter, e)
    ensures Attempts(iteratee, item, key, policy, horizon, s, sleeps, seen)
            == Run(Error(e), Failed(Tried(s), iteratee(item, key, Tried(s)).grant, e), sleeps, seen + [Tried(s)])
  {
  }

  /** The retry loop of one element, from a fresh task state. */
  ghost function ElementRun<T(!new), K(!new), V, E(!new)>(iteratee: Iteratee<T, K, V, E>, item: T, key: K, eachMaxTry: RetryOptions<E>, horizon: nat): Run<V, E>
    requires StopsGranting(iteratee, item, key, horizon)
  {
    var policy := ParseOptions(eachMaxTry);
    Attempts(iteratee, item, key, policy, horizon, Snapshot(0, policy.maxTry, []), [], [])
  }

  /** One attempt: the trial counter steps forward, the iteratee runs against
      the handle and raises the attempt limit by what it grants; a failure is
      recorded and the retry decision is read from the task state. */
  method Attempt<T(!new), K(!new), V, E(!new)>(taskState: TaskState<E>, item: T, key: K, iteratee: Iteratee<T, K, V, E>)
    returns (tried: Snapshot<E>, reply: Reply<V, E>, retry: bool)
    modifies taskState
    ensures tried == Tried(old(taskState.View()))
    ensures reply == iteratee(item, key, tried)
    ensures reply.result.Ok? ==> taskState.View() == tried.(maxTry := tried.maxTry + reply.grant)
    ensures reply.result.Err? ==> taskState.View() == Failed(tried, reply.grant, reply.result.error)
    ensures retry <==> reply.result.Err? && taskState.View().AllowsRetry(taskState.errorFilter, reply.result.error)
    ensures taskState.finished == old(taskState.finished)
  {
    taskState.Try();
    tried := taskState.View();
    reply := iteratee(item, key, tried);
    taskState.IncrementMaxTry(reply.grant);
    retry := false;
    if reply.result.Err? {
      taskState.GotError(reply.result.error);
      retry := taskState.ShouldRetry(reply.result.error);
    }
  }

  /** One turn of the retry loop: an attempt, then either the element's
      outcome or the delay slept before the next attempt. */
  method Turn<T(!new), K(!new), V, E(!new)>(taskState: TaskState<E>, item: T, key: K, iteratee: Iteratee<T, K, V, E>,
                                          ghost policy: Policy<E>, ghost horizon: nat, sleeps: seq<int>, seen: seq<Snapshot<E>>)
    returns (done: bool, value: Option<V>, error: Option<E>, sleeps': seq<int>, seen': seq<Snapshot<E>>)
    modifies taskState
    requires StopsGranting(iteratee, item, key, horizon)
    requires taskState.interval == policy.interval && taskState.errorFilter == policy.errorFilter
    ensures taskState.finished == old(taskState.finished)
    ensures taskState.currentTrial == old(taskState.currentTrial) + 1
    ensures old(taskState.currentTrial) >= horizon ==> taskState.maxTry <= old(taskState.maxTry)
    ensures !done ==> && value.None? && error.None?
                      && Attempts(iteratee, item, key, policy, horizon, taskState.View(), sleeps', seen')
                         == Attempts(iteratee, item, key, policy, horizon, old(taskState.View()), sleeps, seen)
    ensures done ==> && (error.None? ==> value.Some?)
                     && Attempts(iteratee, item, key, policy, horizon, old(taskState.View()), sleeps, seen)
                        == Run(if error.None? then Value(value.value) else Error(error.value), taskState.View(), sleeps', seen')
  {
    ghost var before := taskState.View();
    var tried, reply, retry := Attempt(taskState, item, key, iteratee);
    seen' := seen + [tried];
    sleeps' := sleeps;
    done, value, error := false, None, None;
    match reply.result {
      case Ok(v) =>
        value := Some(v);
        done := true;
        AttemptsSucceeds(iteratee, item, key, policy, horizon, before, sleeps, seen, v);
      case Err(e) =>
        if retry {
          // the loop sleeps this long before the next attempt
          var delay := taskState.DelayInterval();
          sleeps' := sleeps + [delay];
          AttemptsRetries(iteratee, item, key, policy, horizon, before, sleeps, seen, e);
        } else {
          error := Some(e);
          done := true;
          AttemptsGivesUp(iteratee, item, key, policy, horizon, before, sleeps, seen, e);
        }
    }
  }

  /** The retry loop for one element (the body of the per-element callback);
      the element's task state ends finished. */
  method RunElement<T(!new), K(!new), V, E(!new)>(item: T, key: K, iteratee: Iteratee<T, K, V, E>, eachMaxTry: RetryOptions<E>, ghost horizon: nat)
    returns (run: Run<V, E>, taskState: TaskState<E>)
    requires StopsGranting(iteratee, item, key, horizon)
    ensures run == ElementRun(iteratee, item, key, eachMaxTry, horizon)
    ensures taskState.finished && taskState.View() == run.final
  {
    taskState := new TaskState(eachMaxTry);
    ghost var policy := ParseOptions(eachMaxTry);
    ghost var target := ElementRun(iteratee, item, key, eachMaxTry, horizon);
    var done := false;
    var value: Option<V> := None;
    var error: Option<E> := None;
    var sleeps: seq<int> := [];
    var seen: seq<Snapshot<E>> := [];
    while !done
      invariant taskState.interval == policy.interval && taskState.errorFilter == policy.errorFilter
      invariant !done ==> error.None? && Attempts(iteratee, item, key, policy, horizon, taskState.View(), sleeps, seen) == target
      invariant done ==> && (error.None? ==> value.Some?)
                         && target == Run(if error.None? then Value(value.value) else Error(error.value), taskState.View(), sleeps, seen)
      decreases if done then 0 else 1,
                if taskState.currentTrial < horizon then horizon - taskState.currentTrial else 0,
                taskState.maxTry - taskState.currentTrial
    {
      done, value, error, sleeps, seen := Turn(taskState, item, key, iteratee, policy, horizon, sleeps, seen);
    }
    taskState.Finish();
    var entry := if error.None? then Value(value.value) else Error(error.value);
    run := Run(entry, taskState.View(), sleeps, seen);
  }

  /** The concurrency limit handed to the scheduler: `-1` means one slot per element. */
  function EffectiveLimit(parallelLimit: int, collLength: nat): (limit: int)
    ensures parallelLimit == -1 ==> limit == collLength
    ensures parallelLimit != -1 ==> limit == parallelLimit
  {
    if parallelLimit == -1 then collLength else parallelLimit
  }

  /** `order` lists every index below `n` exactly once: the order in which the
      elements of an array complete. */
  ghost predicate IsIndexOrder(order: seq<int>, n: nat)
  {
    && |order| == n
    && (forall j :: 0 <= j < |order| ==> 0 <= order[j] < n)
    && (forall j, k :: 0 <= j < k < |order| ==> order[j] != order[k])
  }

  /** `order` lists every key of `keys` exactly once: the order in which the
      properties of an object complete. */
  ghost predicate IsKeyOrder<K(!new)>(order: seq<K>, keys: set<K>)
  {
    && (forall k :: k in keys <==> k in order)
    && (forall j, k :: 0 <= j < k < |order| ==> order[j] != order[k])
  }

  /** The results array once every element is stored: entry `i` is the outcome of element `i`. */
  ghost function ArrayResults<T(!new), V, E(!new)>(coll: seq<T>, iteratee: Iteratee<T, int, V, E>, eachMaxTry: RetryOptions<E>, horizon: nat)
    : (r: seq<Entry<V, E>>)
    requires ArrayStopsGranting(coll, iteratee, horizon)
    ensures |r| == |coll|
    ensures forall i :: 0 <= i < |coll| ==> r[i] == ElementRun(iteratee, coll[i], i, eachMaxTry, horizon).entry
  {
    seq(|coll|, i requires 0 <= i < |coll| => ElementRun(iteratee, coll[i], i, eachMaxTry, horizon).entry)
  }

  /** The results array while elements are still running: the indices in
      `done` hold their outcome, the others are still empty. */
  ghost function ArraySlots<T(!new), V, E(!new)>(coll: seq<T>, done: seq<int>, iteratee: Iteratee<T, int, V, E>,
                                                 eachMaxTry: RetryOptions<E>, horizon: nat): seq<Option<Entry<V, E>>>
    requires ArrayStopsGranting(coll, iteratee, horizon)
  {
    seq(|coll|, i requires 0 <= i < |coll| =>
      if i in done then Some(ElementRun(iteratee, coll[i], i, eachMaxTry, horizon).entry) else None)
  }

  /** The results object once every property is stored: entry `k` is the outcome of property `k`. */
  ghost function ObjectResults<K(!new), T(!new), V, E(!new)>(coll: map<K, T>, iteratee: Iteratee<T, K, V, E>, eachMaxTry: RetryOptions<E>, horizon: nat)
    : (r: map<K, Entry<V, E>>)
    requires ObjectStopsGranting(coll, iteratee, horizon)
    ensures r.Keys == coll.Keys
    ensures forall k :: k in coll ==> r[k] == ElementRun(iteratee, coll[k], k, eachMaxTry, horizon).entry
  {
    map k | k in coll :: ElementRun(iteratee, coll[k], k, eachMaxTry, horizon).entry
  }

  /** The results object while properties are still running: the keys in
      `done` are present with their outcome. */
  ghost function ObjectSlots<K(!new), T(!new), V, E(!new)>(coll: map<K, T>, done: seq<K>, iteratee: Iteratee<T, K, V, E>,
                                                         eachMaxTry: RetryOptions<E>, horizon: nat): map<K, Entry<V, E>>
    requires ObjectStopsGranting(coll, iteratee, horizon)
  {
    map k | k in coll && k in done :: ElementRun(iteratee, coll[k], k, eachMaxTry, horizon).entry
  }

  /** The invocations of one element's run, labelled with its index or key. */
  function Tagged<K, E>(key: K, seen: seq<Snapshot<E>>): (r: seq<Invocation<K, E>>)
    ensures |r| == |seen|
    ensures forall i :: 0 <= i < |r| ==> r[i] == Invocation(key, seen[i])
  {
    seq(|seen|, i requires 0 <= i < |seen| => Invocation(key, seen[i]))
  }

  /** Every invocation of the iteratee over an array, element run after element
      run in completion order. */
  ghost function ArrayInvocations<T(!new), V, E(!new)>(coll: seq<T>, order: seq<int>, iteratee: Iteratee<T, int, V, E>,
                                                       eachMaxTry: RetryOptions<E>, horizon: nat): seq<Invocation<int, E>>
    requires forall j :: 0 <= j < |order| ==> 0 <= order[j] < |coll|
    requires ArrayStopsGranting(coll, iteratee, horizon)
  {
    if order == [] then []
    else
      var index := order[|order| - 1];
      ArrayInvocations(coll, order[..|order| - 1], iteratee, eachMaxTry, horizon)
        + Tagged(index, ElementRun(iteratee, coll[index], index, eachMaxTry, horizon).seen)
  }

  /** Every invocation of the iteratee over an object, property run after
      property run in completion order. */
  ghost function ObjectInvocations<K(!new), T(!new), V, E(!new)>(coll: map<K, T>, order: seq<K>, iteratee: Iteratee<T, K, V, E>,
                                                                 eachMaxTry: RetryOptions<E>, horizon: nat): seq<Invocation<K, E>>
    requires forall j :: 0 <= j < |order| ==> order[j] in coll
    requires ObjectStopsGranting(coll, iteratee, horizon)
  {
    if order == [] then []
    else
      var key := order[|order| - 1];
      ObjectInvocations(coll, order[..|order| - 1], iteratee, eachMaxTry, horizon)
        + Tagged(key, ElementRun(iteratee, coll[key], key, eachMaxTry, horizon).seen)
  }

  /** The elements of a results array with no hole left. */
  function Filled<X>(slots: seq<Option<X>>): (r: seq<X>)
    requires forall i :: 0 <= i < |slots| ==> slots[i].Some?
    ensures |r| == |slots|
    ensures forall i :: 0 <= i < |r| ==> slots[i] == Some(r[i])
  {
    seq(|slots|, i requires 0 <= i < |slots| => slots[i].value)
  }

  /** Completing the next element in `order` fills exactly its slot and
      appends its invocations. */
  lemma ArrayStep<T(!new), V, E(!new)>(coll: seq<T>, order: seq<int>, j: nat, iteratee: Iteratee<T, int, V, E>,
                                       eachMaxTry: RetryOptions<E>, horizon: nat)
    requires j < |order|
    requires forall i :: 0 <= i < |order| ==> 0 <= order[i] < |coll|
    requires ArrayStopsGranting(coll, iteratee, horizon)
    ensures var run := ElementRun(iteratee, coll[order[j]], order[j], eachMaxTry, horizon);
            && ArraySlots(coll, order[..j + 1], iteratee, eachMaxTry, horizon)
               == ArraySlots(coll, order[..j], iteratee, eachMaxTry, horizon)[order[j] := Some(run.entry)]
            && ArrayInvocations(coll, order[..j + 1], iteratee, eachMaxTry, horizon)
               == ArrayInvocations(coll, order[..j], iteratee, eachMaxTry, horizon) + Tagged(order[j], run.seen)
  {
    assert order[..j + 1] == order[..j] + [order[j]];
    assert order[..j + 1][..j] == order[..j];
  }

  /** Before any element completes, every slot is empty. */
  lemma ArraySlotsEmpty<T(!new), V, E(!new)>(coll: seq<T>, order: seq<int>, iteratee: Iteratee<T, int, V, E>,
                                             eachMaxTry: RetryOptions<E>, horizon: nat)
    requires ArrayStopsGranting(coll, iteratee, horizon)
    ensures ArraySlots(coll, order[..0], iteratee, eachMaxTry, horizon) == seq(|coll|, _ => None)
  {
  }

  /** Once every index is done, no slot is empty and the slots are the results. */
  lemma ArraySlotsComplete<T(!new), V, E(!new)>(coll: seq<T>, order: seq<int>, iteratee: Iteratee<T, int, V, E>,
                                                eachMaxTry: RetryOptions<E>, horizon: nat)
    requires IsIndexOrder(order, |coll|)
    requires ArrayStopsGranting(coll, iteratee, horizon)
    ensures order[..|order|] == order
    ensures var slots := ArraySlots(coll, order, iteratee, eachMaxTry, horizon);
            (forall i :: 0 <= i < |slots| ==> slots[i].Some?) && Filled(slots) == ArrayResults(coll, iteratee, eachMaxTry, horizon)
  {
    IndexOrderCovers(order, |coll|);
  }

  /** The indices below `n`. */
  function Range(n: nat): (r: set<int>)
    ensures forall i :: i in r <==> 0 <= i < n
    ensures |r| == n
  {
    if n == 0 then {} else Range(n - 1) + {n - 1}
  }

  /** A list of `n` distinct indices below `n` contains every index below `n`. */
  lemma {:induction false} IndexOrderCovers(order: seq<int>, n: nat)
    requires IsIndexOrder(order, n)
    ensures forall i :: 0 <= i < n ==> i in order
  {
    var present := set j | 0 <= j < |order| :: order[j];
    DistinctImageSize(order);
    assert present <= Range(n);
    forall i | 0 <= i < n
      ensures i in order
    {
      if i !in order {
        var rest := Range(n) - {i};
        assert |rest| == n - 1;
        assert present <= rest;
        SubsetSize(present, rest);
        assert false;
      }
    }
  }

  /** A subset is no larger than its superset. */
  lemma {:induction false} SubsetSize<X>(a: set<X>, b: set<X>)
    requires a <= b
    ensures |a| <= |b|
  {
    if a != {} {
      var x :| x in a;
      SubsetSize(a - {x}, b - {x});
    }
  }

  /** Distinct elements make a set as large as the list. */
  lemma {:induction false} DistinctImageSize(order: seq<int>)
    requires forall j, k :: 0 <= j < k < |order| ==> order[j] != order[k]
    ensures |set j | 0 <= j < |order| :: order[j]| == |order|
  {
    if order != [] {
      var prefix := order[..|order| - 1];
      DistinctImageSize(prefix);
      assert (set j | 0 <= j < |order| :: order[j])
          == (set j | 0 <= j < |prefix| :: prefix[j]) + {order[|order| - 1]};
    }
  }

  /** The per-element callback over an array: the element's retry loop, its
      entry written at its index, the completion counter advanced, and the
      results handed over once the counter reaches the length. */
  method ArrayCallback<T(!new), V, E(!new)>(coll: seq<T>, iteratee: Iteratee<T, int, V, E>, eachMaxTry: RetryOptions<E>, ghost horizon: nat,
                                           index: int, results: seq<Option<Entry<V, E>>>, doneCnt: nat)
    returns (run: Run<V, E>, results': seq<Option<Entry<V, E>>>, doneCnt': nat, resolved: Option<seq<Option<Entry<V, E>>>>)
    requires 0 <= index < |coll| == |results|
    requires StopsGranting(iteratee, coll[index], index, horizon)
    ensures run == ElementRun(iteratee, coll[index], index, eachMaxTry, horizon)
    ensures results' == results[index := Some(run.entry)]
    ensures doneCnt' == doneCnt + 1
    ensures resolved == if doneCnt' == |coll| then Some(results') else None
  {
    var taskState;
    run, taskState := RunElement(coll[index], index, iteratee, eachMaxTry, horizon);
    results' := results[index := Some(run.entry)];
    doneCnt' := doneCnt + 1;
    resolved := None;
    if doneCnt' == |coll| {
      resolved := Some(results');
    }
  }

  /** `asyncParallelForEach` over an array. The callback of each element runs
      in `order`, the order in which the scheduler lets the elements complete,
      which does not change the results. With no slot (a limit below one
      that is not `-1`) the scheduler starts no element and the run never
      resolves. */
  method ForEachArray<T(!new), V, E(!new)>(coll: seq<T>, parallelLimit: int := -1, iteratee: Iteratee<T, int, V, E>,
                                          eachMaxTry: RetryOptions<E> := Options(1, Some(Fixed(0)), None),
                                          order: seq<int>, ghost horizon: nat)
    returns (limit: int, resolved: Option<seq<Entry<V, E>>>, calls: seq<Invocation<int, E>>)
    requires IsIndexOrder(order, |coll|)
    requires ArrayStopsGranting(coll, iteratee, horizon)
    ensures limit == EffectiveLimit(parallelLimit, |coll|)
    ensures limit < 1 ==> resolved == None && calls == []
    ensures limit >= 1 && |coll| > 0 ==> resolved == Some(ArrayResults(coll, iteratee, eachMaxTry, horizon))
    ensures |coll| == 0 ==> resolved == None
    ensures limit >= 1 ==> calls == ArrayInvocations(coll, order, iteratee, eachMaxTry, horizon)
  {
    var collLength := |coll|;
    limit := parallelLimit;
    if limit == -1 {
      limit := collLength;
    }
    resolved := None;
    calls := [];
    if limit < 1 {
      // the scheduler starts no element without a free slot
      return;
    }
    var results: seq<Option<Entry<V, E>>> := seq(collLength, _ => None);
    var doneCnt := 0;
    ArraySlotsEmpty(coll, order, iteratee, eachMaxTry, horizon);
    for j := 0 to |order|
      invariant doneCnt == j
      invariant results == ArraySlots(coll, order[..j], iteratee, eachMaxTry, horizon)
      invariant resolved == if j == collLength > 0 then Some(ArrayResults(coll, iteratee, eachMaxTry, horizon)) else None
      invariant calls == ArrayInvocations(coll, order[..j], iteratee, eachMaxTry, horizon)
    {
      var run, done;
      ArrayStep(coll, order, j, iteratee, eachMaxTry, horizon);
      run, results, doneCnt, done := ArrayCallback(coll, iteratee, eachMaxTry, horizon, order[j], results, doneCnt);
      calls := calls + Tagged(order[j], run.seen);
      if done.Some? {
        ArraySlotsComplete(coll, order, iteratee, eachMaxTry, horizon);
        resolved := Some(Filled(done.value));
      }
    }
    assert order[..|order|] == order;
  }

  /** The per-element callback over an object: as for an array, with the
      entry stored under the property's key. */
  method ObjectCallback<K(!new), T(!new), V, E(!new)>(coll: map<K, T>, iteratee: Iteratee<T, K, V, E>, eachMaxTry: RetryOptions<E>, ghost horizon: nat,
                                                     key: K, results: map<K, Entry<V, E>>, doneCnt: nat)
    returns (run: Run<V, E>, results': map<K, Entry<V, E>>, doneCnt': nat, resolved: Option<map<K, Entry<V, E>>>)
    requires key in coll
    requires StopsGranting(iteratee, coll[key], key, horizon)
    ensures run == ElementRun(iteratee, coll[key], key, eachMaxTry, horizon)
    ensures results' == results[key := run.entry]
    ensures doneCnt' == doneCnt + 1
    ensures resolved == if doneCnt' == |coll| then Some(results') else None
  {
    var taskState;
    run, taskState := RunElement(coll[key], key, iteratee, eachMaxTry, horizon);
    results' := results[key := run.entry];
    doneCnt' := doneCnt + 1;
    resolved := None;
    if doneCnt' == |coll| {
      resolved := Some(results');
    }
  }

  /** `asyncParallelForEach` over an object: as for an array, with the entry of
      each property stored under its key (and no element started without a slot). */
  method ForEachObject<K(!new), T(!new), V, E(!new)>(coll: map<K, T>, parallelLimit: int := -1, iteratee: Iteratee<T, K, V, E>,
                                                    eachMaxTry: RetryOptions<E> := Options(1, Some(Fixed(0)), None),
                                                    order: seq<K>, ghost horizon: nat)
    returns (limit: int, resolved: Option<map<K, Entry<V, E>>>, calls: seq<Invocation<K, E>>)
    requires IsKeyOrder(order, coll.Keys)
    requires ObjectStopsGranting(coll, iteratee, horizon)
    ensures limit == EffectiveLimit(parallelLimit, |coll|)
    ensures limit < 1 ==> resolved == None && calls == []
    ensures limit >= 1 && |coll| > 0 ==> resolved == Some(ObjectResults(coll, iteratee, eachMaxTry, horizon))
    ensures |coll| == 0 ==> resolved == None
    ensures limit >= 1 ==> calls == ObjectInvocations(coll, order, iteratee, eachMaxTry, horizon)
  {
    var collLength := |coll|;
    limit := parallelLimit;
    if limit == -1 {
      limit := collLength;
    }
    resolved := None;
    calls := [];
    if limit < 1 {
      // the scheduler starts no element without a free slot
      return;
    }
    var results: map<K, Entry<V, E>> := map[];
    var doneCnt := 0;
    KeyOrderSize(order, coll.Keys);
    assert results == ObjectSlots(coll, order[..0], iteratee, eachMaxTry, horizon);
    for j := 0 to |order|
      invariant doneCnt == j
      invariant results == ObjectSlots(coll, order[..j], iteratee, eachMaxTry, horizon)
      invariant resolved == if j == collLength > 0 then Some(ObjectResults(coll, iteratee, eachMaxTry, horizon)) else None
      invariant calls == ObjectInvocations(coll, order[..j], iteratee, eachMaxTry, horizon)
    {
      var run, done;
      ObjectStep(coll, order, j, iteratee, eachMaxTry, horizon);
      run, results, doneCnt, done := ObjectCallback(coll, iteratee, eachMaxTry, horizon, order[j], results, doneCnt);
      calls := calls + Tagged(order[j], run.seen);
      if done.Some? {
        ObjectSlotsComplete(coll, order, iteratee, eachMaxTry, horizon);
        resolved := done;
      }
    }
    assert order[..|order|] == order;
  }

  /** Completing the next property in `order` adds exactly its key and
      appends its invocations. */
  lemma ObjectStep<K(!new), T(!new), V, E(!new)>(coll: map<K, T>, order: seq<K>, j: nat, iteratee: Iteratee<T, K, V, E>,
                                                 eachMaxTry: RetryOptions<E>, horizon: nat)
    requires j < |order|
    requires forall i :: 0 <= i < |order| ==> order[i] in coll
    requires ObjectStopsGranting(coll, iteratee, horizon)
    ensures var run := ElementRun(iteratee, coll[order[j]], order[j], eachMaxTry, horizon);
            && ObjectSlots(coll, order[..j + 1], iteratee, eachMaxTry, horizon)
               == ObjectSlots(coll, order[..j], iteratee, eachMaxTry, horizon)[order[j] := run.entry]
            && ObjectInvocations(coll, order[..j + 1], iteratee, eachMaxTry, horizon)
               == ObjectInvocations(coll, order[..j], iteratee, eachMaxTry, horizon) + Tagged(order[j], run.seen)
  {
    assert order[..j + 1] == order[..j] + [order[j]];
    assert order[..j + 1][..j] == order[..j];
  }

  /** Once every key is done, the slots are the results. */
  lemma ObjectSlotsComplete<K(!new), T(!new), V, E(!new)>(coll: map<K, T>, order: seq<K>, iteratee: Iteratee<T, K, V, E>,
                                                          eachMaxTry: RetryOptions<E>, horizon: nat)
    requires IsKeyOrder(order, coll.Keys)
    requires ObjectStopsGranting(coll, iteratee, horizon)
    ensures order[..|order|] == order
    ensures ObjectSlots(coll, order, iteratee, eachMaxTry, horizon) == ObjectResults(coll, iteratee, eachMaxTry, horizon)
  {
  }

  /** A list of distinct keys that are exactly the keys of a set is as long as the set is large. */
  lemma {:induction false} KeyOrderSize<K(!new)>(order: seq<K>, keys: set<K>)
    requires IsKeyOrder(order, keys)
    ensures |order| == |keys|
  {
    if order != [] {
      var last := order[|order| - 1];
      var prefix := order[..|order| - 1];
      assert last !in prefix;
      forall k
        ensures k in keys - {last} <==> k in prefix
      {
        if k in prefix {
          var j :| 0 <= j < |prefix| && prefix[j] == k;
          assert order[j] == k;
        }
        if k in keys - {last} {
          assert k in order;
        }
      }
      KeyOrderSize(prefix, keys - {last});
    } else {
      assert keys == {};
    }
  }
}
