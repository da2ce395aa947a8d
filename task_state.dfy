/**
 * The retry state that `asyncParallelForEach` keeps for one element of the
 * collection: how many attempts were made, how many are allowed, how long to
 * wait before the next attempt, which errors may be retried, which errors
 * were seen, and whether the element is finished.
 */
module TaskStates {

  /** An optional value; `None` stands for an option the caller left undefined. */
  datatype Option<T> = None | Some(value: T)

  /** The delay policy: a constant number of milliseconds, or a function of
      the number of the attempt about to be made. */
  datatype Interval = Fixed(ms: int) | PerTrial(delay: nat -> int)

  /** The retry configuration handed to the constructor: a bare number of
      attempts, or an object whose `interval` and `errorFilter` may be omitted. */
  datatype RetryOptions<!E> =
    | Times(n: int)
    | Options(times: int, interval: Option<Interval>, errorFilter: Option<E -> bool>)

  /** The configuration a task state ends up with once its options are read. */
  datatype Policy<!E> = Policy(maxTry: int, interval: Interval, errorFilter: E -> bool)

  /** What the iteratee can observe through its task-state handle. */
  datatype Snapshot<E> = Snapshot(currentTrial: nat, maxTry: int, failedReasons: seq<E>)
  {
    predicate IsFirstTrial() { currentTrial == 1 }

    predicate IsLastTrial() { currentTrial >= maxTry }

    /** The retry decision taken after a failed attempt. */
    predicate AllowsRetry(errorFilter: E -> bool, error: E) {
      errorFilter(error) && currentTrial < maxTry
    }
  }

  /** The default error filter: every error may be retried. */
  predicate AcceptAll<E>(error: E) { true }

  /** The delay to wait before attempt number `trial`. */
  function DelayBefore(interval: Interval, trial: nat): int {
    match interval
    case PerTrial(delay) => delay(trial)
    case Fixed(ms) => ms
  }

  /** Reads the retry options the way the constructor does: a bare number only
      sets the attempt limit, an object sets it from `times` and overrides the
      defaults (interval 0, accept every error) with what it defines. */
  function ParseOptions<E>(props: RetryOptions<E>): (p: Policy<E>)
    ensures props.Times? ==> p.maxTry == props.n
    ensures props.Options? ==> p.maxTry == props.times
    ensures props.Times? || props.interval.None? ==> p.interval == Fixed(0)
    ensures props.Options? && props.interval.Some? ==> p.interval == props.interval.value
    ensures props.Times? || props.errorFilter.None? ==> p.errorFilter == AcceptAll
    ensures props.Options? && props.errorFilter.Some? ==> p.errorFilter == props.errorFilter.value
  {
    match props
    case Times(n) => Policy(n, Fixed(0), AcceptAll)
    case Options(times, interval, errorFilter) =>
      Policy(times,
             if interval.Some? then interval.value else Fixed(0),
             if errorFilter.Some? then errorFilter.value else AcceptAll)
  }

  class TaskState<!E> {
    var maxTry: int
    const interval: Interval
    const errorFilter: E -> bool
    var currentTrial: nat
    var failedReasons: seq<E>
    var finished: bool

    /** The configuration, as parsed from the constructor's options and
        updated by `IncrementMaxTry`. */
    function Config(): Policy<E>
      reads this
    {
      Policy(maxTry, interval, errorFilter)
    }

    /** The handle's observable state. */
    function View(): Snapshot<E>
      reads this
    {
      Snapshot(currentTrial, maxTry, failedReasons)
    }

    constructor (props: RetryOptions<E>)
      ensures Config() == ParseOptions(props)
      ensures currentTrial == 0 && failedReasons == [] && !finished
    {
      var iv := Fixed(0);
      var filter: E -> bool := AcceptAll;
      if props.Times? {
        maxTry := props.n;
      } else {
        maxTry := props.times;
        if props.interval.Some? {
          iv := props.interval.value;
        }
        if props.errorFilter.Some? {
          filter := props.errorFilter.value;
        }
      }
      interval := iv;
      errorFilter := filter;
      currentTrial := 0;
      failedReasons := [];
      finished := false;
    }

    predicate IsFirstTrial()
      reads this
    {
      View().IsFirstTrial()
    }

    predicate IsLastTrial()
      reads this
    {
      View().IsLastTrial()
    }

    predicate ShouldRetry(error: E)
      reads this
    {
      View().AllowsRetry(errorFilter, error)
    }

    function DelayInterval(): int
      reads this
    {
      DelayBefore(interval, currentTrial + 1)
    }

    method IncrementMaxTry(increment: int := 1)
      modifies this
      ensures maxTry == old(maxTry) + increment
      ensures currentTrial == old(currentTrial) && failedReasons == old(failedReasons)
      ensures finished == old(finished)
    {
      maxTry := maxTry + increment;
    }

    method Try()
      modifies this
      ensures currentTrial == old(currentTrial) + 1
      ensures maxTry == old(maxTry) && failedReasons == old(failedReasons)
      ensures finished == old(finished)
    {
      currentTrial := currentTrial + 1;
    }

    method GotError(err: E)
      modifies this
      ensures failedReasons == old(failedReasons) + [err]
      ensures currentTrial == old(currentTrial) && maxTry == old(maxTry)
      ensures finished == old(finished)
    {
      failedReasons := failedReasons + [err];
    }

    method Finish()
      modifies this
      ensures finished
      ensures currentTrial == old(currentTrial) && maxTry == old(maxTry)
      ensures failedReasons == old(failedReasons)
    {
      finished := true;
    }
  }

  /** The retry decision is the filter's verdict on a trial that is not the last one. */
  lemma ShouldRetryIff<E>(state: TaskState<E>, error: E)
    ensures state.ShouldRetry(error) <==> state.errorFilter(error) && !state.IsLastTrial()
  {
  }

  /** With the default filter an error is retried exactly when the trial is not the last. */
  lemma ShouldRetryWithDefaultFilter<E>(s: Snapshot<E>, error: E)
    ensures s.AllowsRetry(AcceptAll, error) <==> !s.IsLastTrial()
  {
  }
}
