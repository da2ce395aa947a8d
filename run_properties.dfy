/**
 * What one element's retry loop does, stated without the recursion that
 * defines it: how many times the iteratee runs, what each invocation sees,
 * when the loop stops, what is stored, how many errors are recorded and how
 * long the loop sleeps.
 */
module RunProperties {
  import opened TaskStates
  import opened ParallelForEach
  import opened BackOffRetry

  function Last<X>(s: seq<X>): X
    requires s != []
  {
    s[|s| - 1]
  }

  /** From state `s`, the loop makes at least one more invocation; the `k`-th
      new one observes trial `s.currentTrial + k + 1`, and the final state
      counts every one of them. */
  lemma {:induction false} AttemptsTrials<T(!new), K(!new), V, E(!new)>(iteratee: Iteratee<T, K, V, E>, item: T, key: K, policy: Policy<E>,
                                                                       horizon: nat, s: Snapshot<E>, sleeps: seq<int>, seen: seq<Snapshot<E>>)
    requires StopsGranting(iteratee, item, key, horizon)
    ensures var r := Attempts(iteratee, item, key, policy, horizon, s, sleeps, seen);
            && |r.seen| > |seen|
            && r.final.currentTrial == s.currentTrial + |r.seen| - |seen|
            && r.seen[..|seen|] == seen
            && r.seen[|seen|] == Tried(s)
            && (forall k :: |seen| <= k < |r.seen| ==> r.seen[k].currentTrial == s.currentTrial + k - |seen| + 1)
    decreases if s.currentTrial < horizon then horizon - s.currentTrial else 0, s.maxTry - s.currentTrial
  {
    var reply := iteratee(item, key, Tried(s));
    if reply.result.Err? {
      var e := reply.result.error;
      var failed := Failed(Tried(s), reply.grant, e);
      if failed.AllowsRetry(policy.errorFilter, e) {
        var sleeps', seen' := sleeps + [DelayBefore(policy.interval, failed.currentTrial + 1)], seen + [Tried(s)];
        AttemptsRetries(iteratee, item, key, policy, horizon, s, sleeps, seen, e);
        AttemptsTrials(iteratee, item, key, policy, horizon, failed, sleeps', seen');
        var r := Attempts(iteratee, item, key, policy, horizon, failed, sleeps', seen');
        assert r.seen[..|seen|] == r.seen[..|seen'|][..|seen|];
        assert r.seen[|seen|] == r.seen[..|seen'|][|seen|];
      }
    }
  }

  /** Every failed invocation records its error after those already
      recorded; only a success adds none, and a stored error is the last one
      recorded. */
  lemma {:induction false} AttemptsErrors<T(!new), K(!new), V, E(!new)>(iteratee: Iteratee<T, K, V, E>, item: T, key: K, policy: Policy<E>,
                                                                       horizon: nat, s: Snapshot<E>, sleeps: seq<int>, seen: seq<Snapshot<E>>)
    requires StopsGranting(iteratee, item, key, horizon)
    ensures var r := Attempts(iteratee, item, key, policy, horizon, s, sleeps, seen);
            && |r.seen| > |seen|
            && |r.final.failedReasons| == |s.failedReasons| + |r.seen| - |seen| - (if r.entry.Value? then 1 else 0)
            && r.final.failedReasons[..|s.failedReasons|] == s.failedReasons
            && (r.entry.Error? ==> r.entry.error == Last(r.final.failedReasons))
    decreases if s.currentTrial < horizon then horizon - s.currentTrial else 0, s.maxTry - s.currentTrial
  {
    AttemptsTrials(iteratee, item, key, policy, horizon, s, sleeps, seen);
    var reply := iteratee(item, key, Tried(s));
    match reply.result {
      case Ok(v) =>
        AttemptsSucceeds(iteratee, item, key, policy, horizon, s, sleeps, seen, v);
      case Err(e) =>
        var failed := Failed(Tried(s), reply.grant, e);
        if failed.AllowsRetry(policy.errorFilter, e) {
          var sleeps', seen' := sleeps + [DelayBefore(policy.interval, failed.currentTrial + 1)], seen + [Tried(s)];
          AttemptsRetries(iteratee, item, key, policy, horizon, s, sleeps, seen, e);
          AttemptsErrors(iteratee, item, key, policy, horizon, failed, sleeps', seen');
          var fr := Attempts(iteratee, item, key, policy, horizon, failed, sleeps', seen').final.failedReasons;
          assert fr[..|s.failedReasons|] == fr[..|failed.failedReasons|][..|s.failedReasons|];
        } else {
          AttemptsGivesUp(iteratee, item, key, policy, horizon, s, sleeps, seen, e);
        }
    }
  }

  /** The errors recorded from state `s` on are the ones the new invocations
      threw, in order: recorded error `|s.failedReasons| + j` is the one
      thrown by the `j`-th new invocation. */
  lemma {:induction false} AttemptsThrown<T(!new), K(!new), V, E(!new)>(iteratee: Iteratee<T, K, V, E>, item: T, key: K, policy: Policy<E>,
                                                                       horizon: nat, s: Snapshot<E>, sleeps: seq<int>, seen: seq<Snapshot<E>>)
    requires StopsGranting(iteratee, item, key, horizon)
    ensures var r := Attempts(iteratee, item, key, policy, horizon, s, sleeps, seen);
            && |r.seen| > |seen|
            && (forall k :: |seen| <= k < |r.seen| && |s.failedReasons| + k - |seen| < |r.final.failedReasons| ==>
                  && iteratee(item, key, r.seen[k]).result.Err?
                  && r.final.failedReasons[|s.failedReasons| + k - |seen|] == iteratee(item, key, r.seen[k]).result.error)
    decreases if s.currentTrial < horizon then horizon - s.currentTrial else 0, s.maxTry - s.currentTrial
  {
    var reply := iteratee(item, key, Tried(s));
    match reply.result {
      case Ok(v) =>
        AttemptsSucceeds(iteratee, item, key, policy, horizon, s, sleeps, seen, v);
      case Err(e) =>
        var failed := Failed(Tried(s), reply.grant, e);
        if failed.AllowsRetry(policy.errorFilter, e) {
          var sleeps', seen' := sleeps + [DelayBefore(policy.interval, failed.currentTrial + 1)], seen + [Tried(s)];
          AttemptsRetries(iteratee, item, key, policy, horizon, s, sleeps, seen, e);
          AttemptsThrown(iteratee, item, key, policy, horizon, failed, sleeps', seen');
          AttemptsTrials(iteratee, item, key, policy, horizon, failed, sleeps', seen');
          AttemptsErrors(iteratee, item, key, policy, horizon, failed, sleeps', seen');
          var r := Attempts(iteratee, item, key, policy, horizon, failed, sleeps', seen');
          // the first new invocation is this one, and the first new error the one it threw
          assert r.seen[|seen|] == r.seen[..|seen'|][|seen|];
          assert r.final.failedReasons[|s.failedReasons|] == r.final.failedReasons[..|failed.failedReasons|][|s.failedReasons|];
        } else {
          AttemptsGivesUp(iteratee, item, key, policy, horizon, s, sleeps, seen, e);
        }
    }
  }

  /** Each new invocation sees exactly the errors recorded before it. */
  lemma {:induction false} AttemptsSeenErrors<T(!new), K(!new), V, E(!new)>(iteratee: Iteratee<T, K, V, E>, item: T, key: K, policy: Policy<E>,
                                                                           horizon: nat, s: Snapshot<E>, sleeps: seq<int>, seen: seq<Snapshot<E>>)
    requires StopsGranting(iteratee, item, key, horizon)
    ensures var r := Attempts(iteratee, item, key, policy, horizon, s, sleeps, seen);
            && |r.seen| > |seen|
            && |r.final.failedReasons| >= |s.failedReasons| + |r.seen| - |seen| - 1
            && (forall k :: |seen| <= k < |r.seen| ==> r.seen[k].failedReasons == r.final.failedReasons[..|s.failedReasons| + k - |seen|])
    decreases if s.currentTrial < horizon then horizon - s.currentTrial else 0, s.maxTry - s.currentTrial
  {
    AttemptsTrials(iteratee, item, key, policy, horizon, s, sleeps, seen);
    AttemptsErrors(iteratee, item, key, policy, horizon, s, sleeps, seen);
    var reply := iteratee(item, key, Tried(s));
    if reply.result.Err? {
      var e := reply.result.error;
      var failed := Failed(Tried(s), reply.grant, e);
      if failed.AllowsRetry(policy.errorFilter, e) {
        var sleeps', seen' := sleeps + [DelayBefore(policy.interval, failed.currentTrial + 1)], seen + [Tried(s)];
        AttemptsRetries(iteratee, item, key, policy, horizon, s, sleeps, seen, e);
        AttemptsSeenErrors(iteratee, item, key, policy, horizon, failed, sleeps', seen');
      }
    }
  }

  /** Between two invocations the loop sleeps once, for the delay its
      interval gives the attempt about to be made. */
  lemma {:induction false} AttemptsSleeps<T(!new), K(!new), V, E(!new)>(iteratee: Iteratee<T, K, V, E>, item: T, key: K, policy: Policy<E>,
                                                                       horizon: nat, s: Snapshot<E>, sleeps: seq<int>, seen: seq<Snapshot<E>>)
    requires StopsGranting(iteratee, item, key, horizon)
    ensures var r := Attempts(iteratee, item, key, policy, horizon, s, sleeps, seen);
            && |r.seen| > |seen|
            && |r.sleeps| == |sleeps| + |r.seen| - |seen| - 1
            && r.sleeps[..|sleeps|] == sleeps
            && (forall k :: |sleeps| <= k < |r.sleeps| ==> r.sleeps[k] == DelayBefore(policy.interval, s.currentTrial + k - |sleeps| + 2))
    decreases if s.currentTrial < horizon then horizon - s.currentTrial else 0, s.maxTry - s.currentTrial
  {
    AttemptsTrials(iteratee, item, key, policy, horizon, s, sleeps, seen);
    var reply := iteratee(item, key, Tried(s));
    if reply.result.Err? {
      var e := reply.result.error;
      var failed := Failed(Tried(s), reply.grant, e);
      if failed.AllowsRetry(policy.errorFilter, e) {
        var sleeps', seen' := sleeps + [DelayBefore(policy.interval, failed.currentTrial + 1)], seen + [Tried(s)];
        AttemptsRetries(iteratee, item, key, policy, horizon, s, sleeps, seen, e);
        AttemptsSleeps(iteratee, item, key, policy, horizon, failed, sleeps', seen');
        var r := Attempts(iteratee, item, key, policy, horizon, failed, sleeps', seen');
        assert r.sleeps[..|sleeps|] == r.sleeps[..|sleeps'|][..|sleeps|];
        forall k | |sleeps| <= k < |r.sleeps|
          ensures r.sleeps[k] == DelayBefore(policy.interval, s.currentTrial + k - |sleeps| + 2)
        {
          if k == |sleeps| {
            assert r.sleeps[k] == r.sleeps[..|sleeps'|][k];
          }
        }
      }
    }
  }

  /** The loop stops at the first invocation after which no retry is allowed:
      every earlier invocation failed with an error the filter and the limit
      (raised by its grant) let through, and raised the limit the next one
      saw; the last one's result is what is stored. */
  lemma {:induction false} AttemptsStop<T(!new), K(!new), V, E(!new)>(iteratee: Iteratee<T, K, V, E>, item: T, key: K, policy: Policy<E>,
                                                                     horizon: nat, s: Snapshot<E>, sleeps: seq<int>, seen: seq<Snapshot<E>>)
    requires StopsGranting(iteratee, item, key, horizon)
    ensures var r := Attempts(iteratee, item, key, policy, horizon, s, sleeps, seen);
            && |r.seen| > |seen|
            && r.seen[|seen|].maxTry == s.maxTry
            && (forall k :: |seen| <= k < |r.seen| - 1 ==>
                  && Retries(iteratee, item, key, policy, r.seen[k])
                  && r.seen[k + 1].maxTry == r.seen[k].maxTry + iteratee(item, key, r.seen[k]).grant)
            && !Retries(iteratee, item, key, policy, Last(r.seen))
            && r.entry == EntryOf(iteratee(item, key, Last(r.seen)).result)
            && r.final.maxTry == Last(r.seen).maxTry + iteratee(item, key, Last(r.seen)).grant
    decreases if s.currentTrial < horizon then horizon - s.currentTrial else 0, s.maxTry - s.currentTrial
  {
    AttemptsTrials(iteratee, item, key, policy, horizon, s, sleeps, seen);
    var reply := iteratee(item, key, Tried(s));
    var r := Attempts(iteratee, item, key, policy, horizon, s, sleeps, seen);
    match reply.result {
      case Ok(v) =>
        AttemptsSucceeds(iteratee, item, key, policy, horizon, s, sleeps, seen, v);
      case Err(e) =>
        var failed := Failed(Tried(s), reply.grant, e);
        if failed.AllowsRetry(policy.errorFilter, e) {
          var sleeps', seen' := sleeps + [DelayBefore(policy.interval, failed.currentTrial + 1)], seen + [Tried(s)];
          AttemptsRetries(iteratee, item, key, policy, horizon, s, sleeps, seen, e);
          AttemptsStop(iteratee, item, key, policy, horizon, failed, sleeps', seen');
          assert Retries(iteratee, item, key, policy, r.seen[|seen|]);
        } else {
          AttemptsGivesUp(iteratee, item, key, policy, horizon, s, sleeps, seen, e);
        }
    }
  }

  /** One element's loop from a fresh task state: invocation `k` observes
      trial `k + 1` and the errors of the invocations before it; the final
      state counts every invocation; one error is recorded per failure; a
      stored error is the last one; and before attempt `k + 2` the loop
      sleeps for the delay the interval gives that attempt. */
  lemma ElementRunTrace<T(!new), K(!new), V, E(!new)>(iteratee: Iteratee<T, K, V, E>, item: T, key: K, eachMaxTry: RetryOptions<E>, horizon: nat)
    requires StopsGranting(iteratee, item, key, horizon)
    ensures var r := ElementRun(iteratee, item, key, eachMaxTry, horizon);
            var n := |r.seen|;
            && n >= 1
            && r.final.currentTrial == n
            && (forall k :: 0 <= k < n ==> r.seen[k].currentTrial == k + 1)
            && |r.final.failedReasons| == n - (if r.entry.Value? then 1 else 0)
            && (forall k :: 0 <= k < n ==> r.seen[k].failedReasons == r.final.failedReasons[..k])
            && (r.entry.Error? ==> r.entry.error == Last(r.final.failedReasons))
            && |r.sleeps| == n - 1
            && (forall k :: 0 <= k < |r.sleeps| ==> r.sleeps[k] == DelayBefore(ParseOptions(eachMaxTry).interval, k + 2))
  {
    var policy := ParseOptions(eachMaxTry);
    var start := Snapshot(0, policy.maxTry, []);
    AttemptsTrials(iteratee, item, key, policy, horizon, start, [], []);
    AttemptsErrors(iteratee, item, key, policy, horizon, start, [], []);
    AttemptsSeenErrors(iteratee, item, key, policy, horizon, start, [], []);
    AttemptsSleeps(iteratee, item, key, policy, horizon, start, [], []);
  }

  /** From a fresh task state, recorded error `k` is the error invocation `k`
      threw. */
  lemma ElementRunThrown<T(!new), K(!new), V, E(!new)>(iteratee: Iteratee<T, K, V, E>, item: T, key: K, eachMaxTry: RetryOptions<E>, horizon: nat)
    requires StopsGranting(iteratee, item, key, horizon)
    ensures var r := ElementRun(iteratee, item, key, eachMaxTry, horizon);
            forall k :: 0 <= k < |r.seen| && k < |r.final.failedReasons| ==>
              && iteratee(item, key, r.seen[k]).result.Err?
              && r.final.failedReasons[k] == iteratee(item, key, r.seen[k]).result.error
  {
    var policy := ParseOptions(eachMaxTry);
    AttemptsThrown(iteratee, item, key, policy, horizon, Snapshot(0, policy.maxTry, []), [], []);
  }

  /** One element's loop from a fresh task state stops at its first
      invocation that may not be retried: the first one sees the configured
      limit, each earlier one failed with a retryable error and passed its
      grant on to the next, and the stored entry is the last one's result. */
  lemma ElementRunStops<T(!new), K(!new), V, E(!new)>(iteratee: Iteratee<T, K, V, E>, item: T, key: K, eachMaxTry: RetryOptions<E>, horizon: nat)
    requires StopsGranting(iteratee, item, key, horizon)
    ensures var policy := ParseOptions(eachMaxTry);
            var r := ElementRun(iteratee, item, key, eachMaxTry, horizon);
            && r.seen != []
            && r.seen[0].maxTry == policy.maxTry
            && (forall k :: 0 <= k < |r.seen| - 1 ==>
                  && Retries(iteratee, item, key, policy, r.seen[k])
                  && r.seen[k + 1].maxTry == r.seen[k].maxTry + iteratee(item, key, r.seen[k]).grant)
            && !Retries(iteratee, item, key, policy, Last(r.seen))
            && r.entry == EntryOf(iteratee(item, key, Last(r.seen)).result)
            && r.final.maxTry == Last(r.seen).maxTry + iteratee(item, key, Last(r.seen)).grant
  {
    var policy := ParseOptions(eachMaxTry);
    AttemptsStop(iteratee, item, key, policy, horizon, Snapshot(0, policy.maxTry, []), [], []);
  }

  /** A failure the error filter rejects ends the loop, however many attempts remain. */
  lemma RejectedErrorEndsRun<T(!new), K(!new), V, E(!new)>(iteratee: Iteratee<T, K, V, E>, item: T, key: K, eachMaxTry: RetryOptions<E>,
                                                           horizon: nat, k: nat)
    requires StopsGranting(iteratee, item, key, horizon)
    requires k < |ElementRun(iteratee, item, key, eachMaxTry, horizon).seen|
    requires var reply := iteratee(item, key, ElementRun(iteratee, item, key, eachMaxTry, horizon).seen[k]);
             reply.result.Err? && !ParseOptions(eachMaxTry).errorFilter(reply.result.error)
    ensures k == |ElementRun(iteratee, item, key, eachMaxTry, horizon).seen| - 1
    ensures ElementRun(iteratee, item, key, eachMaxTry, horizon).entry.Error?
  {
    ElementRunStops(iteratee, item, key, eachMaxTry, horizon);
  }

  /** When the iteratee never raises the limit on this element, every
      invocation sees the configured limit. */
  lemma {:induction false} NoGrantKeepsLimit<T(!new), K(!new), V, E(!new)>(iteratee: Iteratee<T, K, V, E>, item: T, key: K,
                                                                          eachMaxTry: RetryOptions<E>, horizon: nat, k: nat)
    requires StopsGranting(iteratee, item, key, horizon)
    requires forall s: Snapshot<E> :: iteratee(item, key, s).grant == 0
    requires k < |ElementRun(iteratee, item, key, eachMaxTry, horizon).seen|
    ensures ElementRun(iteratee, item, key, eachMaxTry, horizon).seen[k].maxTry == ParseOptions(eachMaxTry).maxTry
  {
    ElementRunStops(iteratee, item, key, eachMaxTry, horizon);
    if k > 0 {
      NoGrantKeepsLimit(iteratee, item, key, eachMaxTry, horizon, k - 1);
    }
  }

  /** When every attempt up to the configured limit (the first one when
      `times` is below one) fails with an error the filter accepts, and the
      limit is never raised, the iteratee runs `times` times (once when
      `times` is below one), whatever later trials would have returned, and
      the element stores the last error, having recorded one error per
      attempt. */
  lemma AllFailWithoutGrants<T(!new), K(!new), V, E(!new)>(iteratee: Iteratee<T, K, V, E>, item: T, key: K, eachMaxTry: RetryOptions<E>, horizon: nat)
    requires StopsGranting(iteratee, item, key, horizon)
    requires forall s: Snapshot<E> :: iteratee(item, key, s).grant == 0
    requires forall s: Snapshot<E> :: 0 < s.currentTrial <= Attempted(ParseOptions(eachMaxTry).maxTry) ==>
               iteratee(item, key, s).result.Err? && ParseOptions(eachMaxTry).errorFilter(iteratee(item, key, s).result.error)
    ensures var r := ElementRun(iteratee, item, key, eachMaxTry, horizon);
            && |r.seen| == Attempted(ParseOptions(eachMaxTry).maxTry)
            && r.entry.Error?
            && |r.final.failedReasons| == |r.seen|
  {
    var bound := Attempted(ParseOptions(eachMaxTry).maxTry);
    var r := ElementRun(iteratee, item, key, eachMaxTry, horizon);
    var n := |r.seen|;
    ElementRunTrace(iteratee, item, key, eachMaxTry, horizon);
    ElementRunStops(iteratee, item, key, eachMaxTry, horizon);
    // the last invocation, or the one at the bound if the run went past it
    var k := if n > bound then bound - 1 else n - 1;
    NoGrantKeepsLimit(iteratee, item, key, eachMaxTry, horizon, k);
    assert r.seen[k].currentTrial == k + 1;
    NoGrantKeepsLimit(iteratee, item, key, eachMaxTry, horizon, n - 1);
    assert Last(r.seen).currentTrial == n;
  }

  /** How many attempts a limit of `times` allows when every one fails: at least one. */
  function Attempted(times: int): (n: nat)
    ensures n >= 1 && n >= times
    ensures times >= 1 ==> n == times
  {
    if times >= 1 then times else 1
  }

  /** When the first success comes at attempt `at`, within the limit and
      without the limit being raised, the iteratee runs `at` times and the
      element stores that value. */
  lemma FirstSuccessAt<T(!new), K(!new), V, E(!new)>(iteratee: Iteratee<T, K, V, E>, item: T, key: K, eachMaxTry: RetryOptions<E>,
                                                     horizon: nat, at: nat, v: V)
    requires StopsGranting(iteratee, item, key, horizon)
    requires 1 <= at <= ParseOptions(eachMaxTry).maxTry
    requires forall s: Snapshot<E> :: iteratee(item, key, s).grant == 0
    requires forall s: Snapshot<E> :: 0 < s.currentTrial < at ==>
               iteratee(item, key, s).result.Err? && ParseOptions(eachMaxTry).errorFilter(iteratee(item, key, s).result.error)
    requires forall s: Snapshot<E> :: s.currentTrial == at ==> iteratee(item, key, s).result == Ok(v)
    ensures |ElementRun(iteratee, item, key, eachMaxTry, horizon).seen| == at
    ensures ElementRun(iteratee, item, key, eachMaxTry, horizon).entry == Value(v)
  {
    var r := ElementRun(iteratee, item, key, eachMaxTry, horizon);
    var n := |r.seen|;
    ElementRunTrace(iteratee, item, key, eachMaxTry, horizon);
    ElementRunStops(iteratee, item, key, eachMaxTry, horizon);
    NoGrantKeepsLimit(iteratee, item, key, eachMaxTry, horizon, n - 1);
    assert Last(r.seen).currentTrial == n;
    // the invocation that sees trial `at` succeeds, so it is not followed by another
    var k := if at < n then at - 1 else 0;
    assert r.seen[k].currentTrial == k + 1;
  }

  /** `isFirstTrial()` holds on an element's first invocation and on no other. */
  lemma ElementRunFirstTrial<T(!new), K(!new), V, E(!new)>(iteratee: Iteratee<T, K, V, E>, item: T, key: K, eachMaxTry: RetryOptions<E>, horizon: nat)
    requires StopsGranting(iteratee, item, key, horizon)
    ensures var r := ElementRun(iteratee, item, key, eachMaxTry, horizon);
            forall k :: 0 <= k < |r.seen| ==> (r.seen[k].IsFirstTrial() <==> k == 0)
  {
    ElementRunTrace(iteratee, item, key, eachMaxTry, horizon);
  }

  /** `isLastTrial()` tells the iteratee whether its failure is retried: on
      the last trial, unless it raises the limit, the loop ends after this
      invocation; on any other trial, an accepted error with the limit not
      lowered is retried. */
  lemma LastTrialDecidesRetry<T(!new), K(!new), V, E(!new)>(iteratee: Iteratee<T, K, V, E>, item: T, key: K, eachMaxTry: RetryOptions<E>,
                                                            horizon: nat, k: nat)
    requires StopsGranting(iteratee, item, key, horizon)
    requires k < |ElementRun(iteratee, item, key, eachMaxTry, horizon).seen|
    ensures var r := ElementRun(iteratee, item, key, eachMaxTry, horizon);
            var reply := iteratee(item, key, r.seen[k]);
            && (r.seen[k].IsLastTrial() && reply.grant <= 0 ==> k == |r.seen| - 1)
            && (!r.seen[k].IsLastTrial() && reply.grant >= 0 && reply.result.Err? && ParseOptions(eachMaxTry).errorFilter(reply.result.error)
                ==> k < |r.seen| - 1)
  {
    ElementRunStops(iteratee, item, key, eachMaxTry, horizon);
  }

  /** The grants of an iteratee that raises the limit by `g` on the
      configured last trial, while the limit is still the configured one. */
  function RaiseOnLastTrial<E>(s: Snapshot<E>, times: int, g: nat): (grant: nat)
    ensures grant == 0 || s.currentTrial == times
  {
    if s.currentTrial == s.maxTry == times then g else 0
  }

  /** Under `RaiseOnLastTrial`, invocations up to the configured last trial
      see the configured limit and later ones see it raised by `g`. */
  lemma {:induction false} RaisedLimitSeen<T(!new), K(!new), V, E(!new)>(iteratee: Iteratee<T, K, V, E>, item: T, key: K, eachMaxTry: RetryOptions<E>,
                                                                        horizon: nat, g: nat, k: nat)
    requires StopsGranting(iteratee, item, key, horizon)
    requires ParseOptions(eachMaxTry).maxTry >= 1
    requires forall s: Snapshot<E> :: iteratee(item, key, s).grant == RaiseOnLastTrial(s, ParseOptions(eachMaxTry).maxTry, g)
    requires k < |ElementRun(iteratee, item, key, eachMaxTry, horizon).seen|
    ensures var times := ParseOptions(eachMaxTry).maxTry;
            ElementRun(iteratee, item, key, eachMaxTry, horizon).seen[k].maxTry == if k < times then times else times + g
  {
    ElementRunTrace(iteratee, item, key, eachMaxTry, horizon);
    ElementRunStops(iteratee, item, key, eachMaxTry, horizon);
    var r := ElementRun(iteratee, item, key, eachMaxTry, horizon);
    if k > 0 {
      RaisedLimitSeen(iteratee, item, key, eachMaxTry, horizon, g, k - 1);
      // invocation `k - 1` observes trial `k` and passes its grant on
      assert r.seen[k - 1].currentTrial == k;
      assert r.seen[k].maxTry == r.seen[k - 1].maxTry + RaiseOnLastTrial(r.seen[k - 1], ParseOptions(eachMaxTry).maxTry, g);
    }
  }

  /** When every attempt fails with an accepted error and the iteratee calls
      `incrementMaxTry(g)` on the last of `times >= 1` trials, the iteratee
      runs `times + g` times and the element stores an error, having
      recorded one error per attempt. */
  lemma IncrementOnLastTrialRuns<T(!new), K(!new), V, E(!new)>(iteratee: Iteratee<T, K, V, E>, item: T, key: K, eachMaxTry: RetryOptions<E>,
                                                               horizon: nat, g: nat)
    requires StopsGranting(iteratee, item, key, horizon)
    requires ParseOptions(eachMaxTry).maxTry >= 1
    requires forall s: Snapshot<E> :: iteratee(item, key, s).grant == RaiseOnLastTrial(s, ParseOptions(eachMaxTry).maxTry, g)
    requires forall s: Snapshot<E> :: iteratee(item, key, s).result.Err? && ParseOptions(eachMaxTry).errorFilter(iteratee(item, key, s).result.error)
    ensures var r := ElementRun(iteratee, item, key, eachMaxTry, horizon);
            && |r.seen| == ParseOptions(eachMaxTry).maxTry + g
            && r.entry.Error?
            && |r.final.failedReasons| == |r.seen|
  {
    var r := ElementRun(iteratee, item, key, eachMaxTry, horizon);
    var n := |r.seen|;
    ElementRunTrace(iteratee, item, key, eachMaxTry, horizon);
    ElementRunStops(iteratee, item, key, eachMaxTry, horizon);
    RaisedLimitSeen(iteratee, item, key, eachMaxTry, horizon, g, n - 1);
    if n >= 2 {
      RaisedLimitSeen(iteratee, item, key, eachMaxTry, horizon, g, n - 2);
    }
  }

  /** With `exponential()` as interval, the loop sleeps 100 ms before the
      second attempt and twice as long before each later one. */
  lemma ExponentialRunSleeps<T(!new), K(!new), V, E(!new)>(iteratee: Iteratee<T, K, V, E>, item: T, key: K, eachMaxTry: RetryOptions<E>, horizon: nat)
    requires StopsGranting(iteratee, item, key, horizon)
    requires ParseOptions(eachMaxTry).interval == Exponential()
    ensures var r := ElementRun(iteratee, item, key, eachMaxTry, horizon);
            forall k :: 0 <= k < |r.sleeps| ==> r.sleeps[k] == 100 * Pow2(k)
  {
    ElementRunTrace(iteratee, item, key, eachMaxTry, horizon);
    forall k: nat {
      ExponentialBeforeAttempt(k);
    }
  }
}
