/**
 * Concrete runs of the library's end-to-end tests, with the iteratee each
 * test passes written as an oracle on the state its handle shows.
 */
module Scenarios {
  import opened TaskStates
  import opened ParallelForEach
  import opened RunProperties
  import opened BackOffRetry

  const ErrorHere := "error here"

  /** The trial number each invocation observed. */
  function TrialTrace<K, E>(calls: seq<Invocation<K, E>>): (r: seq<nat>)
    ensures |r| == |calls|
    ensures forall i :: 0 <= i < |calls| ==> r[i] == calls[i].state.currentTrial
  {
    seq(|calls|, i requires 0 <= i < |calls| => calls[i].state.currentTrial)
  }

  /** What `isFirstTrial()` answered in each invocation. */
  function FirstTrace<K, E>(calls: seq<Invocation<K, E>>): (r: seq<bool>)
    ensures |r| == |calls|
    ensures forall i :: 0 <= i < |calls| ==> r[i] == calls[i].state.IsFirstTrial()
  {
    seq(|calls|, i requires 0 <= i < |calls| => calls[i].state.IsFirstTrial())
  }

  /** What `isLastTrial()` answered in each invocation. */
  function LastTrace<K, E>(calls: seq<Invocation<K, E>>): (r: seq<bool>)
    ensures |r| == |calls|
    ensures forall i :: 0 <= i < |calls| ==> r[i] == calls[i].state.IsLastTrial()
  {
    seq(|calls|, i requires 0 <= i < |calls| => calls[i].state.IsLastTrial())
  }

  /** The iteratee of the first TaskState test: it fails until trial 3; on
      element `c` it raises the limit by one on its last trial the first time
      round, which is trial 3 while the limit is still 3, and fails then too. */
  function TrialTestIteratee(item: string, index: int, s: Snapshot<string>): Reply<(), string>
  {
    if item == "c" && s.currentTrial == 3 && s.maxTry == 3 then Reply(1, Err(ErrorHere))
    else if s.currentTrial < 3 then Reply(0, Err(ErrorHere))
    else Reply(0, Ok(()))
  }

  function TrialTestOptions(): RetryOptions<string>
  {
    Options(3, Some(Fixed(500)), Some(e => e == ErrorHere))
  }

  /** One element's run in the first TaskState test. */
  ghost function TrialTestRun(item: string, index: int): Run<(), string>
  {
    ElementRun(TrialTestIteratee, item, index, TrialTestOptions(), 3)
  }

  /** Element `c` in the first TaskState test: four invocations, at limits
      3, 3, 3 and 4, ending in success. */
  lemma TrialTestElementC()
    ensures var r := TrialTestRun("c", 2);
            && Traces(Tagged(2, r.seen), [1, 2, 3, 4], [true, false, false, false], [false, false, true, true])
            && r.entry == Value(())
  {
    var it: Iteratee<string, int, (), string> := TrialTestIteratee;
    var r := TrialTestRun("c", 2);
    ElementRunTrace(it, "c", 2, TrialTestOptions(), 3);
    ElementRunStops(it, "c", 2, TrialTestOptions(), 3);
    var n := |r.seen|;
    // trials 1 to 3 fail and may be retried, so there is a fourth
    assert n > 1 by {
      assert !Retries(it, "c", 2, ParseOptions(TrialTestOptions()), r.seen[0]) ==> n == 1;
    }
    assert r.seen[1].maxTry == 3;
    assert n > 2 by {
      assert !Retries(it, "c", 2, ParseOptions(TrialTestOptions()), r.seen[1]) ==> n == 2;
    }
    assert r.seen[2].maxTry == 3;
    assert n > 3 by {
      assert !Retries(it, "c", 2, ParseOptions(TrialTestOptions()), r.seen[2]) ==> n == 3;
    }
    assert r.seen[3].maxTry == 4;
    // trial 4 succeeds, so it is the last
    assert !Retries(it, "c", 2, ParseOptions(TrialTestOptions()), r.seen[3]);
    FourTrialTraces(2, r.seen);
  }

  /** The traces of four invocations, the last one at a limit raised to 4. */
  lemma FourTrialTraces<K, E>(key: K, seen: seq<Snapshot<E>>)
    requires |seen| == 4
    requires forall k :: 0 <= k < 4 ==> seen[k].currentTrial == k + 1
    requires seen[0].maxTry == 3 && seen[1].maxTry == 3 && seen[2].maxTry == 3 && seen[3].maxTry == 4
    ensures Traces(Tagged(key, seen), [1, 2, 3, 4], [true, false, false, false], [false, false, true, true])
  {
    var calls := Tagged(key, seen);
    assert TrialTrace(calls) == [1, 2, 3, 4];
    assert FirstTrace(calls) == [true, false, false, false];
    assert LastTrace(calls) == [false, false, true, true];
  }

  /** The three traces of one element's invocations. */
  predicate Traces<K, E>(calls: seq<Invocation<K, E>>, trials: seq<nat>, first: seq<bool>, last: seq<bool>)
  {
    TrialTrace(calls) == trials && FirstTrace(calls) == first && LastTrace(calls) == last
  }

  /** The traces of a sequence of runs are the traces of each, in turn. */
  lemma TracesConcat<K, E>(a: seq<Invocation<K, E>>, b: seq<Invocation<K, E>>,
                           trialsA: seq<nat>, firstA: seq<bool>, lastA: seq<bool>,
                           trialsB: seq<nat>, firstB: seq<bool>, lastB: seq<bool>)
    requires Traces(a, trialsA, firstA, lastA) && Traces(b, trialsB, firstB, lastB)
    ensures Traces(a + b, trialsA + trialsB, firstA + firstB, lastA + lastB)
  {
    assert TrialTrace(a + b) == trialsA + trialsB;
    assert FirstTrace(a + b) == firstA + firstB;
    assert LastTrace(a + b) == lastA + lastB;
  }

  /** The traces of three invocations at limit 3. */
  lemma ThreeTrialTraces<K, E>(key: K, seen: seq<Snapshot<E>>)
    requires |seen| == 3
    requires forall k :: 0 <= k < 3 ==> seen[k].currentTrial == k + 1 && seen[k].maxTry == 3
    ensures Traces(Tagged(key, seen), [1, 2, 3], [true, false, false], [false, false, true])
  {
    var calls := Tagged(key, seen);
    assert TrialTrace(calls) == [1, 2, 3];
    assert FirstTrace(calls) == [true, false, false];
    assert LastTrace(calls) == [false, false, true];
  }

  /** Elements other than `c` in the first TaskState test: three invocations
      at limit 3, the third succeeding. */
  lemma TrialTestOtherElement(item: string, index: int)
    requires item != "c"
    ensures var r := TrialTestRun(item, index);
            && Traces(Tagged(index, r.seen), [1, 2, 3], [true, false, false], [false, false, true])
            && r.entry == Value(())
  {
    var it: Iteratee<string, int, (), string> := TrialTestIteratee;
    var r := ElementRun(it, item, index, TrialTestOptions(), 3);
    FirstSuccessAt(it, item, index, TrialTestOptions(), 3, 3, ());
    ElementRunTrace(it, item, index, TrialTestOptions(), 3);
    forall k | 0 <= k < 3 {
      NoGrantKeepsLimit(it, item, index, TrialTestOptions(), 3, k);
    }
    ThreeTrialTraces(index, r.seen);
  }

  /** The invocations of the first TaskState test, element after element. */
  lemma TrialTestInvocations()
    ensures ArrayInvocations(["a", "b", "c"], [0, 1, 2], TrialTestIteratee, TrialTestOptions(), 3)
         == Tagged(0, TrialTestRun("a", 0).seen)
          + Tagged(1, TrialTestRun("b", 1).seen)
          + Tagged(2, TrialTestRun("c", 2).seen)
  {
    TrialTestStops();
    InvocationsOfThree(["a", "b", "c"], TrialTestIteratee, TrialTestOptions(), 3);
  }

  /** Three elements completing in index order. */
  lemma InvocationsOfThree<T(!new), V, E(!new)>(coll: seq<T>, iteratee: Iteratee<T, int, V, E>, eachMaxTry: RetryOptions<E>, horizon: nat)
    requires |coll| == 3
    requires ArrayStopsGranting(coll, iteratee, horizon)
    ensures ArrayInvocations(coll, [0, 1, 2], iteratee, eachMaxTry, horizon)
         == Tagged(0, ElementRun(iteratee, coll[0], 0, eachMaxTry, horizon).seen)
          + Tagged(1, ElementRun(iteratee, coll[1], 1, eachMaxTry, horizon).seen)
          + Tagged(2, ElementRun(iteratee, coll[2], 2, eachMaxTry, horizon).seen)
  {
    var t0 := Tagged(0, ElementRun(iteratee, coll[0], 0, eachMaxTry, horizon).seen);
    var t1 := Tagged(1, ElementRun(iteratee, coll[1], 1, eachMaxTry, horizon).seen);
    var t2 := Tagged(2, ElementRun(iteratee, coll[2], 2, eachMaxTry, horizon).seen);
    assert ArrayInvocations(coll, [0], iteratee, eachMaxTry, horizon) == t0 by {
      assert [0][..0] == [];
    }
    assert ArrayInvocations(coll, [0, 1], iteratee, eachMaxTry, horizon) == t0 + t1 by {
      assert [0, 1][..1] == [0];
    }
    assert [0, 1, 2][..2] == [0, 1];
  }

  /** The iteratee of the first TaskState test raises no limit after trial 3. */
  lemma TrialTestStops()
    ensures ArrayStopsGranting(["a", "b", "c"], TrialTestIteratee, 3)
  {
  }

  /** The first TaskState test, run sequentially (`parallelLimit` 1): the
      trial numbers seen are 1, 2, 3, 1, 2, 3, 1, 2, 3, 4, `isFirstTrial()`
      holds exactly on each element's first invocation and `isLastTrial()` on
      each third one and on the fourth of `c`; every element ends with a value. */
  lemma TrialTestTraces()
    ensures Traces(ArrayInvocations(["a", "b", "c"], [0, 1, 2], TrialTestIteratee, TrialTestOptions(), 3),
                   [1, 2, 3, 1, 2, 3, 1, 2, 3, 4],
                   [true, false, false, true, false, false, true, false, false, false],
                   [false, false, true, false, false, true, false, false, true, true])
  {
    TrialTestOtherElement("a", 0);
    TrialTestOtherElement("b", 1);
    TrialTestElementC();
    TrialTestInvocations();
    TrialTestConcat(Tagged(0, TrialTestRun("a", 0).seen), Tagged(1, TrialTestRun("b", 1).seen), Tagged(2, TrialTestRun("c", 2).seen));
  }

  /** Two elements done in three trials followed by one done in four give the
      traces the first TaskState test expects. */
  lemma TrialTestConcat<K, E>(ta: seq<Invocation<K, E>>, tb: seq<Invocation<K, E>>, tc: seq<Invocation<K, E>>)
    requires Traces(ta, [1, 2, 3], [true, false, false], [false, false, true])
    requires Traces(tb, [1, 2, 3], [true, false, false], [false, false, true])
    requires Traces(tc, [1, 2, 3, 4], [true, false, false, false], [false, false, true, true])
    ensures Traces(ta + tb + tc,
                   [1, 2, 3, 1, 2, 3, 1, 2, 3, 4],
                   [true, false, false, true, false, false, true, false, false, false],
                   [false, false, true, false, false, true, false, false, true, true])
  {
    TracesConcat(ta, tb, [1, 2, 3], [true, false, false], [false, false, true],
                 [1, 2, 3], [true, false, false], [false, false, true]);
    TracesConcat(ta + tb, tc, [1, 2, 3, 1, 2, 3], [true, false, false, true, false, false], [false, false, true, false, false, true],
                 [1, 2, 3, 4], [true, false, false, false], [false, false, true, true]);
    assert [1, 2, 3] + [1, 2, 3] + [1, 2, 3, 4] == [1, 2, 3, 1, 2, 3, 1, 2, 3, 4];
  }

  /** Every element of the first TaskState test ends with a value. */
  lemma TrialTestResults()
    ensures ArrayResults(["a", "b", "c"], TrialTestIteratee, TrialTestOptions(), 3) == [Value(()), Value(()), Value(())]
  {
    TrialTestOtherElement("a", 0);
    TrialTestOtherElement("b", 1);
    TrialTestElementC();
  }

  /** The iteratee of the `incrementMaxTry(2)` test: it always fails, and on
      its last trial the first time round, trial 3 at limit 3, raises the
      limit by two. */
  function IncrementTestIteratee(item: string, index: int, s: Snapshot<string>): Reply<(), string>
  {
    if s.currentTrial == 3 && s.maxTry == 3 then Reply(2, Err(ErrorHere)) else Reply(0, Err(ErrorHere))
  }

  ghost function IncrementTestRun(): Run<(), string>
  {
    ElementRun(IncrementTestIteratee, "a", 0, Options(3, None, None), 3)
  }

  /** With `times: 3` and `incrementMaxTry(2)` on the last trial, the iteratee
      runs five times and the element stores the error. */
  lemma IncrementTestCalls()
    ensures |IncrementTestRun().seen| == 5
    ensures IncrementTestRun().entry == Error(ErrorHere)
  {
    var it: Iteratee<string, int, (), string> := IncrementTestIteratee;
    IncrementOnLastTrialRuns(it, "a", 0, Options(3, None, None), 3, 2);
    // every invocation throws `error here`, so that is what the last one leaves
    ElementRunStops(it, "a", 0, Options(3, None, None), 3);
  }

  const SomeError := "some error"

  /** The iteratee of the exponential-delay test: element 0 always fails,
      element 1 returns its item. */
  function ExponentialTestIteratee(item: string, index: int, s: Snapshot<string>): Reply<string, string>
  {
    if index == 0 then Reply(0, Err(SomeError)) else Reply(0, Ok(item))
  }

  function ExponentialTestOptions(): RetryOptions<string>
  {
    Options(5, Some(Exponential()), None)
  }

  ghost function ExponentialTestRun(item: string, index: int): Run<string, string>
  {
    ElementRun(ExponentialTestIteratee, item, index, ExponentialTestOptions(), 0)
  }

  /** The failing element of the exponential-delay test runs five times and
      sleeps 100, 200, 400 and 800 ms between its attempts. */
  lemma ExponentialTestFailing()
    ensures |ExponentialTestRun("a", 0).seen| == 5
    ensures ExponentialTestRun("a", 0).sleeps == [100, 200, 400, 800]
    ensures ExponentialTestRun("a", 0).entry == Error(SomeError)
  {
    var it: Iteratee<string, int, string, string> := ExponentialTestIteratee;
    var r := ExponentialTestRun("a", 0);
    AllFailWithoutGrants(it, "a", 0, ExponentialTestOptions(), 0);
    ElementRunTrace(it, "a", 0, ExponentialTestOptions(), 0);
    ElementRunStops(it, "a", 0, ExponentialTestOptions(), 0);
    ExponentialRunSleeps(it, "a", 0, ExponentialTestOptions(), 0);
    assert Pow2(1) == 2 && Pow2(2) == 4 && Pow2(3) == 8;
  }

  /** The exponential-delay test, run sequentially: six invocations in all,
      the second element storing its value. */
  lemma ExponentialTestCalls()
    ensures |ArrayInvocations(["a", "b"], [0, 1], ExponentialTestIteratee, ExponentialTestOptions(), 0)| == 6
    ensures ArrayResults(["a", "b"], ExponentialTestIteratee, ExponentialTestOptions(), 0) == [Error(SomeError), Value("b")]
  {
    var it: Iteratee<string, int, string, string> := ExponentialTestIteratee;
    ExponentialTestFailing();
    FirstSuccessAt(it, "b", 1, ExponentialTestOptions(), 0, 1, "b");
    assert [0, 1][..1] == [0] && [0][..0] == [];
  }
}
