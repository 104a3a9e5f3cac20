/**
  Properties of the tween lifecycle that relate several operations or several
  updates: the phases of one update, the reachable-state invariant, the number
  of completions a repeat count buys, auto-reverse, pausing and cancellation.
 */
module TweenProperties {
  import opened Wrappers
  import opened Tweening

  /**
    A step that gets past the delay initialises the tween, advances the elapsed
    duration (from 0 after a completed run), completes exactly when the
    duration is reached, and emits the callback events in order.
   */
  lemma UpdatePastDelay(t: Tween, dt: real)
    requires t.setup.duration > 0.0 && Active(t) && !StillDelayed(t, dt)
    ensures var r := Update(t, dt);
      && r.isInitialized
      && r.elapsed == ElapsedAfter(t, dt)
      && (r.isComplete <==> Completes(t, dt))
      && r.trace == t.trace + Emitted(t, dt)
  {
  }

  /**
    The step that reaches the duration ends the run: completion 1, the member on
    the end value whatever the easing, onEnd fired, and the repeat bookkeeping
    (a positive count drops by one, a negative count stays and keeps the tween
    alive, a zero count ends it).
   */
  lemma UpdateEndsRun(t: Tween, dt: real)
    requires t.setup.duration > 0.0 && Completes(t, dt)
    ensures var r := Update(t, dt);
      && r.isComplete && r.completion == 1.0 && Completion(r) == 1.0
      && (Inv(t) ==> r.member == r.values.end)
      && (t.setup.hasOnEnd ==> r.trace[|r.trace| - 1] == Ended)
      && (t.remainingRepeats > 0 ==> r.isAlive && r.remainingRepeats == t.remainingRepeats - 1 && r.remainingDelay == t.setup.repeatDelay)
      && (t.remainingRepeats < 0 ==> r.isAlive && r.remainingRepeats == t.remainingRepeats && r.remainingDelay == t.setup.repeatDelay)
      && (t.remainingRepeats == 0 ==> !r.isAlive && r.remainingRepeats == 0)
  {
  }

  /** A step inside a run keeps the tween alive and puts the member at the eased fraction of the range. */
  lemma UpdateMidRun(t: Tween, dt: real)
    requires t.setup.duration > 0.0 && Active(t) && !StillDelayed(t, dt) && !Completes(t, dt)
    ensures var r := Update(t, dt);
      && r.isAlive && !r.isComplete
      && r.remainingRepeats == t.remainingRepeats
      && r.remainingDelay <= 0.0 && (forall dt' :: !StillDelayed(r, dt'))
      && r.completion == r.elapsed / r.setup.duration
      && r.member == r.values.start + r.values.range * Ease(t.setup.easing, r.completion)
  {
  }

  /**
    The first step past the delay initialises: it captures the member as the
    start and end - start as the range, and fires onBegin first.
   */
  lemma FirstUpdateInitializes(t: Tween, dt: real)
    requires t.setup.duration > 0.0 && Active(t) && !StillDelayed(t, dt)
    requires !t.isInitialized && !t.isComplete
    ensures var r := Update(t, dt);
      && r.isInitialized
      && r.values.start == t.member && r.values.end == t.values.end && r.values.range == t.values.end - t.member
      && (t.setup.hasOnBegin ==> |r.trace| > |t.trace| && r.trace[|t.trace|] == Began)
  {
  }

  /**
    The step after a completed run restarts it: elapsed starts again from 0,
    onBegin fires, and an auto-reversing tween whose member rests on the end
    value exchanges start and end; otherwise start and end stay.
   */
  lemma UpdateRestartsRun(t: Tween, dt: real)
    requires t.setup.duration > 0.0 && Active(t) && !StillDelayed(t, dt)
    requires t.isComplete && Inv(t)
    ensures var r := Update(t, dt);
      && r.elapsed == dt
      && (t.setup.hasOnBegin ==> |r.trace| > |t.trace| && r.trace[|t.trace|] == Began)
      && (t.setup.isAutoReverse ==> r.values.start == t.values.end && r.values.end == t.values.start)
      && (!t.setup.isAutoReverse ==> r.values.start == t.values.start && r.values.end == t.values.end)
  {
  }

  /** Every operation keeps the reachable-state invariant. */
  lemma UpdatePreservesInv(t: Tween, dt: real)
    requires t.setup.duration > 0.0 && Inv(t)
    ensures Inv(Update(t, dt))
  {
  }

  /** The configuration operations and cancellation keep the invariant too. */
  lemma ConfigurationPreservesInv(t: Tween, easing: Option<real -> real>, registered: bool, count: int, repeatDelay: real)
    requires Inv(t)
    ensures Inv(Easing(t, easing)) && Inv(OnBegin(t, registered)) && Inv(OnEnd(t, registered))
    ensures Inv(Pause(t)) && Inv(Resume(t))
    ensures Inv(Repeat(t, count, repeatDelay)) && Inv(RepeatForever(t, repeatDelay)) && Inv(AutoReverse(t))
    ensures Inv(Cancel(t)) && Inv(CancelAndComplete(t)) && Inv(CancelAndCompleteFixed(t))
  {
  }

  /** Completed runs still available to a tween with a finite repeat count:
      the remaining repeats plus the current run while it is alive, none once it is dead. */
  ghost predicate Budget(t: Tween, n: nat)
  {
    t.remainingRepeats >= 0 && (if t.isAlive then n == t.remainingRepeats + 1 else n == 0)
  }

  /** An update invokes onEnd exactly once when it ends a run and the callback is registered. */
  lemma EmittedEnds(t: Tween, dt: real)
    ensures multiset(Emitted(t, dt))[Ended] == if Completes(t, dt) && t.setup.hasOnEnd then 1 else 0
  {
  }

  /** One update spends at most one run of the budget, and spends one exactly when it ends a run. */
  lemma UpdateSpendsBudget(t: Tween, dt: real, n: nat)
    requires t.setup.duration > 0.0 && Budget(t, n)
    ensures var r := Update(t, dt);
      && (Completes(t, dt) ==> n >= 1 && Budget(r, n - 1))
      && (!Completes(t, dt) ==> Budget(r, n))
  {
  }

  /**
    Over any sequence of updates, a tween with a finite repeat budget of n runs
    completes at most n runs, and it is dead exactly when it has completed all n.
   */
  lemma {:induction false} RunSpendsBudget(t: Tween, dts: seq<real>, n: nat)
    requires t.setup.duration > 0.0 && Budget(t, n)
    ensures Completions(t, dts) <= n
    ensures Budget(Run(t, dts), n - Completions(t, dts))
    decreases |dts|
  {
    if |dts| > 0 {
      var t1 := Update(t, dts[0]);
      UpdateSpendsBudget(t, dts[0], n);
      if Completes(t, dts[0]) {
        RunSpendsBudget(t1, dts[1..], n - 1);
      } else {
        RunSpendsBudget(t1, dts[1..], n);
      }
    }
  }

  /** With onEnd registered, the callback is invoked once per completed run and at no other time. */
  lemma {:induction false} EndsCountCompletions(t: Tween, dts: seq<real>)
    requires t.setup.duration > 0.0 && t.setup.hasOnEnd
    ensures EndCount(Run(t, dts)) == EndCount(t) + Completions(t, dts)
    decreases |dts|
  {
    if |dts| > 0 {
      var t1 := Update(t, dts[0]);
      if Active(t) && !StillDelayed(t, dts[0]) {
        UpdatePastDelay(t, dts[0]);
      }
      EmittedEnds(t, dts[0]);
      assert EndCount(t1) == EndCount(t) + (if Completes(t, dts[0]) then 1 else 0);
      EndsCountCompletions(t1, dts[1..]);
    }
  }

  /**
    Repeat(k) with k >= 0 buys exactly k + 1 completed runs: whatever the frame
    times, the tween never completes more, and it dies exactly when it has
    completed k + 1.
   */
  lemma RepeatGivesKPlusOneRuns(duration: real, delay: real, member: real, endValue: real,
                                k: nat, repeatDelay: real, dts: seq<real>)
    requires duration > 0.0
    ensures var t := Repeat(NewTween(duration, delay, member, endValue), k, repeatDelay);
      && Completions(t, dts) <= k + 1
      && (!Run(t, dts).isAlive <==> Completions(t, dts) == k + 1)
  {
    RunSpendsBudget(Repeat(NewTween(duration, delay, member, endValue), k, repeatDelay), dts, k + 1);
  }

  /** AutoReverse on a tween with no repeats buys exactly one extra run, then the tween dies. */
  lemma AutoReverseGivesTwoRuns(duration: real, delay: real, member: real, endValue: real, dts: seq<real>)
    requires duration > 0.0
    ensures var t := AutoReverse(NewTween(duration, delay, member, endValue));
      && Completions(t, dts) <= 2
      && (!Run(t, dts).isAlive <==> Completions(t, dts) == 2)
  {
    RunSpendsBudget(AutoReverse(NewTween(duration, delay, member, endValue)), dts, 2);
  }

  /**
    Swapping twice, with the member carried to the swapped end value in between
    (as a reversed run does), gives back the original start, end and range.
   */
  lemma SwapRoundTrip(t: Tween)
    requires Inv(t) && t.isInitialized && t.member == t.values.end
    ensures var s := Swap(t); Swap(s.(member := s.values.end)).values == t.values
  {
  }

  /**
    An auto-reversing tween with no delay, driven by two frames of one duration
    each, goes there and back: after the second run it is dead with the member
    back on its original value.
   */
  lemma AutoReverseThereAndBack(duration: real, member: real, endValue: real)
    requires duration > 0.0
    ensures var t := AutoReverse(NewTween(duration, 0.0, member, endValue));
      var t1 := Update(t, duration);
      var t2 := Update(t1, duration);
      && t1.isAlive && t1.member == endValue
      && !t2.isAlive && t2.member == member
  {
  }

  /** A tween repeating forever is never ended by updates. */
  lemma {:induction false} RepeatForeverStaysAlive(t: Tween, dts: seq<real>)
    requires t.setup.duration > 0.0 && t.isAlive && IsRepeatingForever(t)
    ensures Run(t, dts).isAlive && IsRepeatingForever(Run(t, dts))
    decreases |dts|
  {
    if |dts| > 0 {
      var t1 := Update(t, dts[0]);
      if Completes(t, dts[0]) {
        UpdateEndsRun(t, dts[0]);
      } else if Active(t) && !StillDelayed(t, dts[0]) {
        UpdateMidRun(t, dts[0]);
      }
      RepeatForeverStaysAlive(t1, dts[1..]);
    }
  }

  /** A paused tween ignores updates, and resuming undoes pausing. */
  lemma PauseFreezesAndResumeRestores(t: Tween, dt: real)
    requires t.setup.duration > 0.0
    ensures Update(Pause(t), dt) == Pause(t)
    ensures !t.isPaused ==> Resume(Pause(t)) == t
    ensures t.isPaused ==> Pause(Resume(t)) == t
  {
  }

  /** Cancel is idempotent, and a cancelled tween ignores updates. */
  lemma CancelIsIdempotent(t: Tween, dt: real)
    requires t.setup.duration > 0.0
    ensures Cancel(Cancel(t)) == Cancel(t)
    ensures Update(Cancel(t), dt) == Cancel(t)
    ensures CancelAndComplete(Cancel(t)) == Cancel(t)
  {
  }

  /** An initialised tween cancelled-and-completed lands exactly on the end value. */
  lemma CancelAndCompleteLandsOnEnd(t: Tween)
    requires Inv(t) && t.isAlive && t.isInitialized
    ensures CancelAndComplete(t).member == t.values.end
    ensures CancelAndComplete(t) == CancelAndCompleteFixed(t)
  {
  }

  /**
    As written, cancelling-and-completing a tween whose first update has not
    got past the delay interpolates with the default start and range of 0, so
    the member jumps to 0 rather than to the end value; the corrected operation
    lands on the end value.
   */
  lemma CancelAndCompleteBeforeFirstUpdate(member: real, endValue: real)
    requires endValue != 0.0
    ensures var t := NewTween(1.0, 0.5, member, endValue);
      && CancelAndComplete(t).member == 0.0
      && CancelAndComplete(t).member != t.values.end
      && CancelAndCompleteFixed(t).member == t.values.end
  {
  }

  /** The time remaining reaches 0 exactly when a step past the delay completes the run. */
  lemma TimeRemainingAtCompletion(t: Tween, dt: real)
    requires t.setup.duration > 0.0 && Active(t) && !StillDelayed(t, dt)
    ensures Update(t, dt).isComplete <==> TimeRemaining(Update(t, dt)) <= 0.0
    ensures TimeRemaining(Update(t, dt)) == t.setup.duration - ElapsedAfter(t, dt)
  {
  }
}
