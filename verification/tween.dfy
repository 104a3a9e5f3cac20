/**
  The tween lifecycle of MonoGame.Extended.Tweening/Tween.cs, specialised to a
  single real-valued member.  A tween is an immutable record; every public
  operation of the source class is a pure transition from one record to the
  next.  Time and values are exact reals.

  The tweened member is held in the record (`member`): only this tween writes
  it.  The `onBegin` and `onEnd` callbacks are modelled by whether one is
  registered and by the events their invocations append to `trace`.
 */
module Tweening {
  import opened Wrappers

  /** An invocation of one of the two callbacks. */
  datatype Event = Began | Ended

  /** What the constructor and the builder operations configure; an update never changes it. */
  datatype Setup = Setup(
    duration: real,
    delay: real,
    easing: Option<real -> real>,
    hasOnBegin: bool,
    hasOnEnd: bool,
    isAutoReverse: bool,
    repeatDelay: real)

  /** The typed part of `Tween<T>`: the captured start, the end, and the range between them. */
  datatype Values = Values(start: real, end: real, range: real)

  datatype Tween = Tween(
    setup: Setup,
    isPaused: bool,
    isAlive: bool,
    isComplete: bool,
    isInitialized: bool,
    completion: real,        // raw completion; the Completion view clamps it
    elapsed: real,           // elapsed duration of the current run
    remainingDelay: real,
    remainingRepeats: int,   // -1 repeats forever, 0 means no further run
    values: Values,
    member: real,
    trace: seq<Event>)

  /** The reachable-state invariant: the captured range spans start to end, and a
      tween that has completed and is still alive holds its member at the end value. */
  ghost predicate Inv(t: Tween)
  {
    && (t.isInitialized ==> t.values.start + t.values.range == t.values.end)
    && (t.isComplete && t.isAlive ==> t.isInitialized && t.member == t.values.end)
  }

  predicate IsRepeating(t: Tween)
  {
    t.remainingRepeats != 0
  }

  predicate IsRepeatingForever(t: Tween)
  {
    t.remainingRepeats < 0
  }

  /** An update does something only for a live tween that is not paused. */
  predicate Active(t: Tween)
  {
    !t.isPaused && t.isAlive
  }

  /** This step is spent entirely inside the (repeat) delay. */
  predicate StillDelayed(t: Tween, dt: real)
  {
    t.remainingDelay > 0.0 && t.remainingDelay - dt > 0.0
  }

  /** The elapsed duration a step past the delay reaches: a completed run restarts from 0. */
  function ElapsedAfter(t: Tween, dt: real): real
  {
    (if t.isComplete then 0.0 else t.elapsed) + dt
  }

  /** This step detects the end of a run. */
  predicate Completes(t: Tween, dt: real)
  {
    Active(t) && !StillDelayed(t, dt) && ElapsedAfter(t, dt) >= t.setup.duration
  }

  /** The callback events one update emits, in order: the first begin, the begin of a
      restarted run, the end of a run, each only when its callback is registered. */
  function Emitted(t: Tween, dt: real): seq<Event>
  {
    if !Active(t) || StillDelayed(t, dt) then []
    else
      (if !t.isInitialized && t.setup.hasOnBegin then [Began] else [])
      + (if t.isComplete && t.setup.hasOnBegin then [Began] else [])
      + (if ElapsedAfter(t, dt) >= t.setup.duration && t.setup.hasOnEnd then [Ended] else [])
  }

  /** The number of onEnd invocations so far. */
  function EndCount(t: Tween): nat
  {
    multiset(t.trace)[Ended]
  }

  function NewTween(duration: real, delay: real, member: real, endValue: real): (t: Tween)
    ensures t.isAlive && !t.isComplete && !t.isPaused && !t.isInitialized
    ensures !IsRepeating(t) && !IsRepeatingForever(t)
    ensures t.remainingDelay == delay
    ensures t.member == member && t.values.end == endValue && t.trace == []
    ensures t.setup == Setup(duration, delay, None, false, false, false, 0.0)
    ensures t.elapsed == 0.0 && t.completion == 0.0 && t.values.start == 0.0 && t.values.range == 0.0
    ensures Inv(t)
  {
    Tween(Setup(duration, delay, None, false, false, false, 0.0),
          false, true, false, false,
          0.0, 0.0, delay, 0,
          Values(0.0, endValue, 0.0), member, [])
  }

  /** The easing applied to the raw completion; none means linear. */
  function Ease(easing: Option<real -> real>, n: real): real
  {
    match easing
    case None => n
    case Some(f) => f(n)
  }

  /** Installs an easing delegate; none (a null delegate) means linear again. */
  function Easing(t: Tween, easing: Option<real -> real>): (r: Tween)
    ensures forall n :: Ease(r.setup.easing, n) == (if easing.Some? then easing.value(n) else n)
    ensures r.setup == t.setup.(easing := easing)
    ensures r.(setup := t.setup) == t
  {
    t.(setup := t.setup.(easing := easing))
  }

  /** Registers (or, with a null action, unregisters) the begin callback. */
  function OnBegin(t: Tween, registered: bool): (r: Tween)
    ensures r.setup.hasOnBegin == registered
    ensures r.setup == t.setup.(hasOnBegin := registered)
    ensures r.(setup := t.setup) == t
  {
    t.(setup := t.setup.(hasOnBegin := registered))
  }

  /** Registers (or, with a null action, unregisters) the end callback. */
  function OnEnd(t: Tween, registered: bool): (r: Tween)
    ensures r.setup.hasOnEnd == registered
    ensures r.setup == t.setup.(hasOnEnd := registered)
    ensures r.(setup := t.setup) == t
  {
    t.(setup := t.setup.(hasOnEnd := registered))
  }

  function Pause(t: Tween): (r: Tween)
    ensures r.isPaused && !Active(r)
    ensures r.(isPaused := t.isPaused) == t
  {
    t.(isPaused := true)
  }

  function Resume(t: Tween): (r: Tween)
    ensures !r.isPaused
    ensures Active(r) <==> t.isAlive
    ensures r.(isPaused := t.isPaused) == t
  {
    t.(isPaused := false)
  }

  function Repeat(t: Tween, count: int, repeatDelay: real): (r: Tween)
    ensures IsRepeating(r) <==> count != 0
    ensures IsRepeatingForever(r) <==> count < 0
    ensures r.remainingRepeats == count
    ensures r.setup == t.setup.(repeatDelay := repeatDelay)
    ensures r.(remainingRepeats := t.remainingRepeats, setup := t.setup) == t
  {
    t.(remainingRepeats := count, setup := t.setup.(repeatDelay := repeatDelay))
  }

  function RepeatForever(t: Tween, repeatDelay: real): (r: Tween)
    ensures IsRepeating(r) && IsRepeatingForever(r)
    ensures r.remainingRepeats == -1
    ensures r.setup == t.setup.(repeatDelay := repeatDelay)
    ensures r.(remainingRepeats := t.remainingRepeats, setup := t.setup) == t
  {
    t.(remainingRepeats := -1, setup := t.setup.(repeatDelay := repeatDelay))
  }

  function AutoReverse(t: Tween): (r: Tween)
    ensures r.setup.isAutoReverse && IsRepeating(r)
    ensures IsRepeatingForever(r) <==> IsRepeatingForever(t)
    ensures IsRepeating(t) ==> r.remainingRepeats == t.remainingRepeats
    ensures !IsRepeating(t) ==> r.remainingRepeats == 1
    ensures r.setup == t.setup.(isAutoReverse := true)
    ensures r.(remainingRepeats := t.remainingRepeats, setup := t.setup) == t
  {
    var repeats := if t.remainingRepeats == 0 then 1 else t.remainingRepeats;
    t.(remainingRepeats := repeats, setup := t.setup.(isAutoReverse := true))
  }

  /** Captures the member's current value as the start and the distance to the end as the range. */
  function Initialize(t: Tween): (r: Tween)
    ensures r.values.start == t.member && r.values.end == t.values.end
    ensures r.values.start + r.values.range == r.values.end
    ensures r.(values := t.values) == t
  {
    t.(values := Values(t.member, t.values.end, t.values.end - t.member))
  }

  /** Moves the member the fraction n of the way along the range. */
  function Interpolate(t: Tween, n: real): (r: Tween)
    ensures t.isInitialized && Inv(t) ==> (n == 0.0 ==> r.member == t.values.start) && (n == 1.0 ==> r.member == t.values.end)
    ensures r.(member := t.member) == t
  {
    t.(member := t.values.start + t.values.range * n)
  }

  /** Reverses direction: the old start becomes the end and the member's value the start,
      so a member resting on the old end value exchanges start and end. */
  function Swap(t: Tween): (r: Tween)
    ensures r.values.end == t.values.start && r.values.start == t.member
    ensures r.values.start + r.values.range == r.values.end
    ensures t.member == t.values.end ==> r.values.start == t.values.end && r.values.range == -(t.values.end - t.values.start)
    ensures r.(values := t.values) == t
  {
    Initialize(t.(values := t.values.(end := t.values.start)))
  }

  /** Invokes a callback: the event is recorded only when one is registered. */
  function Fire(t: Tween, e: Event, registered: bool): (r: Tween)
    ensures r.trace == t.trace + (if registered then [e] else [])
    ensures r.(trace := t.trace) == t
  {
    if registered then t.(trace := t.trace + [e]) else t
  }

  function Cancel(t: Tween): (r: Tween)
    ensures !r.isAlive && !IsRepeating(r)
    ensures r.(isAlive := t.isAlive, remainingRepeats := t.remainingRepeats) == t
  {
    t.(remainingRepeats := 0, isAlive := false)
  }

  /** As written: an alive tween is interpolated to 1 with whatever start and range it holds. */
  function CancelAndComplete(t: Tween): (r: Tween)
    ensures !r.isAlive && !IsRepeating(r)
    ensures !t.isAlive ==> r == Cancel(t)
    ensures t.isAlive ==> r.isComplete && r.completion == 1.0
    ensures t.isAlive ==> r.member == t.values.start + t.values.range
    ensures t.isAlive ==> r.trace == t.trace + (if t.setup.hasOnEnd then [Ended] else [])
    ensures t.isAlive ==> r.(member := t.member, completion := t.completion, isComplete := t.isComplete,
                             trace := t.trace, isAlive := t.isAlive, remainingRepeats := t.remainingRepeats) == t
  {
    if t.isAlive then
      var t1 := Interpolate(t.(completion := 1.0), 1.0).(isComplete := true);
      Cancel(Fire(t1, Ended, t1.setup.hasOnEnd))
    else
      Cancel(t)
  }

  /** CancelAndComplete with the missing initialisation supplied: a tween that never
      began captures its start first, so the member always lands on the end value. */
  function CancelAndCompleteFixed(t: Tween): (r: Tween)
    ensures !r.isAlive && !IsRepeating(r)
    ensures !t.isAlive ==> r == Cancel(t)
    ensures t.isAlive && Inv(t) ==> r.isComplete && r.completion == 1.0 && r.member == t.values.end
    ensures t.isAlive ==> r.trace == t.trace + (if t.setup.hasOnEnd then [Ended] else [])
    ensures t.isAlive ==> r.isInitialized
    ensures t.isAlive && t.isInitialized ==> r.values == t.values
    ensures t.isAlive && !t.isInitialized ==> r.values.start == t.member && r.values.end == t.values.end
    ensures t.isAlive ==> r.(member := t.member, completion := t.completion, isComplete := t.isComplete,
                             trace := t.trace, isAlive := t.isAlive, remainingRepeats := t.remainingRepeats,
                             isInitialized := t.isInitialized, values := t.values) == t
  {
    if t.isAlive then
      var t0 := if t.isInitialized then t else Initialize(t.(isInitialized := true));
      var t1 := Interpolate(t0.(completion := 1.0), 1.0).(isComplete := true);
      Cancel(Fire(t1, Ended, t1.setup.hasOnEnd))
    else
      Cancel(t)
  }

  /** Spends dt of a positive remaining delay. */
  function CountDown(t: Tween, dt: real): (r: Tween)
    ensures t.remainingDelay > 0.0 ==> r.remainingDelay == t.remainingDelay - dt
    ensures t.remainingDelay <= 0.0 ==> r == t
    ensures r.(remainingDelay := t.remainingDelay) == t
  {
    if t.remainingDelay > 0.0 then t.(remainingDelay := t.remainingDelay - dt) else t
  }

  /** The first step past the delay initialises once and fires onBegin. */
  function BeginIfFirst(t: Tween): (r: Tween)
    ensures r.isInitialized
    ensures t.isInitialized ==> r == t
    ensures !t.isInitialized ==> r.values.start == t.member && r.values.end == t.values.end
    ensures !t.isInitialized ==> r.values.start + r.values.range == r.values.end
    ensures r.trace == t.trace + (if !t.isInitialized && t.setup.hasOnBegin then [Began] else [])
    ensures r.(isInitialized := t.isInitialized, values := t.values, trace := t.trace) == t
  {
    if t.isInitialized then t
    else Fire(Initialize(t.(isInitialized := true)), Began, t.setup.hasOnBegin)
  }

  /** A step after a completed run starts the next run: elapsed back to 0, onBegin, and
      a swap of direction for an auto-reversing tween. */
  function RestartIfComplete(t: Tween): (r: Tween)
    ensures !r.isComplete
    ensures !t.isComplete ==> r == t
    ensures t.isComplete ==> r.elapsed == 0.0
    ensures t.isComplete && t.setup.isAutoReverse ==> r.values.end == t.values.start && r.values.start == t.member
    ensures t.isComplete && t.setup.isAutoReverse ==> r.values.start + r.values.range == r.values.end
    ensures !(t.isComplete && t.setup.isAutoReverse) ==> r.values == t.values
    ensures r.trace == t.trace + (if t.isComplete && t.setup.hasOnBegin then [Began] else [])
    ensures r.(isComplete := t.isComplete, elapsed := t.elapsed, values := t.values, trace := t.trace) == t
  {
    if !t.isComplete then t
    else
      var t1 := Fire(t.(isComplete := false, elapsed := 0.0), Began, t.setup.hasOnBegin);
      if t1.setup.isAutoReverse then Swap(t1) else t1
  }

  /** The end of a run: repeat bookkeeping, then completion 1 and the complete flag. */
  function EndRun(t: Tween): (r: Tween)
    ensures r.isComplete && r.completion == 1.0
    ensures t.remainingRepeats > 0 ==> r.isAlive == t.isAlive && r.remainingRepeats == t.remainingRepeats - 1 && r.remainingDelay == t.setup.repeatDelay
    ensures t.remainingRepeats < 0 ==> r.isAlive == t.isAlive && r.remainingRepeats == t.remainingRepeats && r.remainingDelay == t.setup.repeatDelay
    ensures t.remainingRepeats == 0 ==> !r.isAlive && r.remainingRepeats == 0 && r.remainingDelay == t.remainingDelay
    ensures r.(isComplete := t.isComplete, completion := t.completion, isAlive := t.isAlive,
               remainingRepeats := t.remainingRepeats, remainingDelay := t.remainingDelay) == t
  {
    var t1 :=
      if t.remainingRepeats != 0 then
        var repeats := if t.remainingRepeats > 0 then t.remainingRepeats - 1 else t.remainingRepeats;
        t.(remainingRepeats := repeats, remainingDelay := t.setup.repeatDelay)
      else
        t.(isAlive := false);
    t1.(completion := 1.0, isComplete := true)
  }

  /** Advances the run by dt, detects its end and moves the member; the easing is
      ignored at the end, where the member is put on start + range. */
  function Advance(t: Tween, dt: real): (r: Tween)
    requires t.setup.duration > 0.0 && !t.isComplete
    ensures r.setup == t.setup && r.isPaused == t.isPaused
    ensures r.isInitialized == t.isInitialized && r.values == t.values
    ensures r.elapsed == t.elapsed + dt
    ensures r.isComplete <==> r.elapsed >= t.setup.duration
    ensures r.isComplete ==> r.completion == 1.0 && r.member == t.values.start + t.values.range
    ensures r.isComplete && t.remainingRepeats > 0 ==> r.isAlive == t.isAlive && r.remainingRepeats == t.remainingRepeats - 1 && r.remainingDelay == t.setup.repeatDelay
    ensures r.isComplete && t.remainingRepeats < 0 ==> r.isAlive == t.isAlive && r.remainingRepeats == t.remainingRepeats && r.remainingDelay == t.setup.repeatDelay
    ensures r.isComplete && t.remainingRepeats == 0 ==> !r.isAlive && r.remainingRepeats == 0 && r.remainingDelay == t.remainingDelay
    ensures !r.isComplete ==>
      && r.isAlive == t.isAlive && r.remainingRepeats == t.remainingRepeats && r.remainingDelay == t.remainingDelay
      && r.completion == r.elapsed / t.setup.duration
      && r.member == t.values.start + t.values.range * Ease(t.setup.easing, r.completion)
    ensures r.trace == t.trace + (if r.isComplete && t.setup.hasOnEnd then [Ended] else [])
  {
    var e := t.elapsed + dt;
    if e >= t.setup.duration then
      var t2 := Interpolate(EndRun(t.(elapsed := e)), 1.0);
      Fire(t2, Ended, t2.setup.hasOnEnd)
    else
      var c := e / t.setup.duration;
      Interpolate(t.(elapsed := e, completion := c), Ease(t.setup.easing, c))
  }

  /** One frame of dt seconds. */
  function Update(t: Tween, dt: real): (r: Tween)
    requires t.setup.duration > 0.0
    ensures r.setup == t.setup && r.isPaused == t.isPaused
    ensures !Active(t) ==> r == t
    ensures Active(t) && StillDelayed(t, dt) ==> r == t.(remainingDelay := t.remainingDelay - dt)
    ensures t.isInitialized ==> r.isInitialized
  {
    if !Active(t) then t
    else if StillDelayed(t, dt) then t.(remainingDelay := t.remainingDelay - dt)
    else Advance(RestartIfComplete(BeginIfFirst(CountDown(t, dt))), dt)
  }

  /** A sequence of frames. */
  function Run(t: Tween, dts: seq<real>): (r: Tween)
    requires t.setup.duration > 0.0
    ensures r.setup == t.setup
    decreases |dts|
  {
    if |dts| == 0 then t else Run(Update(t, dts[0]), dts[1..])
  }

  /** The number of runs a sequence of frames completes, whether or not onEnd is registered. */
  function Completions(t: Tween, dts: seq<real>): (c: nat)
    requires t.setup.duration > 0.0
    ensures c <= |dts|
    decreases |dts|
  {
    if |dts| == 0 then 0
    else (if Completes(t, dts[0]) then 1 else 0) + Completions(Update(t, dts[0]), dts[1..])
  }

  /** The reported completion, clamped to [0, 1]. */
  function Completion(t: Tween): (c: real)
    ensures 0.0 <= c <= 1.0
    ensures 0.0 <= t.completion <= 1.0 ==> c == t.completion
    ensures t.completion < 0.0 ==> c == 0.0
    ensures t.completion > 1.0 ==> c == 1.0
  {
    if t.completion < 0.0 then 0.0
    else if t.completion > 1.0 then 1.0
    else t.completion
  }

  function TimeRemaining(t: Tween): real
  {
    t.setup.duration - t.elapsed
  }
}
