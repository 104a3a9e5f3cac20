# Tween lifecycle and polynomial easings of MonoGame.Extended.Tweening

This project models, in Dafny, the tweening core used by the space game's map view:

- **`Tween`** (`MonoGame.Extended.Tweening/Tween.cs`): a tween moves one member of a target
  from its value at the start of the tween to an end value over `Duration` seconds,
  after an initial `Delay`. Each frame's `Update(dt)` runs through the lifecycle:
  1. the delay countdown;
  2. a one-time initialisation that captures the start value and fires `onBegin`;
  3. the restart of a run that completed on an earlier frame: elapsed back to 0 and
     `onBegin` again, with an auto-reversing tween swapping its direction;
  4. advancing the elapsed duration and easing the completion fraction;
  5. completion detection, which puts the member exactly on the end value, fires
     `onEnd` and does the repeat bookkeeping.

  The builder operations are also modelled: `Easing`, `OnBegin`, `OnEnd`, `Pause`,
  `Resume`, `Repeat`, `RepeatForever` and `AutoReverse`. So are `Cancel`,
  `CancelAndComplete` and the `Completion` and `TimeRemaining` views.

- **The polynomial easing functions** (`MonoGame.Extended.Tweening/EasingFunctions.cs`):
  - `Linear`;
  - the integer-power family `Power.In/Out/InOut` and its Quadratic, Cubic, Quartic and
    Quintic wrappers;
  - the `Out` and `InOut` combinators;
  - the piecewise-quadratic `BounceIn/BounceOut/BounceInOut`.

The tween is an immutable record (`Tweening.Tween`), and every operation is a pure function
from one record to the next. It is specialised to a single real-valued member. The
configuration set by the constructor and the builder operations sits in `Setup`. The typed
part of `Tween<T>` (start, end, range) sits in `Values`. The tweened member itself is the
field `member`. The optional easing delegate is an `Option<real -> real>`. The two callbacks
are modelled by whether one is registered (`hasOnBegin`, `hasOnEnd`) and by the `Began`/`Ended`
events their invocations append to `trace`. Time, completion and values are exact reals.

Behaviour kept exactly as written:

- The step that uses up the delay still adds its whole `dt` to the elapsed duration.
- A repeat count below −1 also repeats forever, because only a positive count is decremented.
- The easing is ignored on the completing step.

Files: `wrappers.dfy` (Option), `power.dfy` (module `Power`), `easing.dfy` (module
`EasingFunctions`), `tween.dfy` (module `Tweening`), `tween_properties.dfy` (module
`TweenProperties`: lemmas relating several operations or updates).

`Tweening.Inv` is the reachable-state invariant:

- once the tween is initialised, start + range = end;
- a completed tween that is still alive holds its member on the end value.

The views `IsRepeating`, `IsRepeatingForever`, `Active`, `StillDelayed`, `Completes`,
`Emitted` and `EndCount` are used in the contracts below.

## Model

| member | source | states |
|---|---|---|
| Tweening.NewTween | MonoGame.Extended.Tweening/Tween.cs:44-59 | a new tween is alive, not paused, not complete, not initialised, not repeating, not auto-reversing, has remaining delay equal to the delay, no easing or callbacks, repeat delay, elapsed, completion, start and range all 0, an empty callback trace, and satisfies the invariant |
| Tweening.Initialize | MonoGame.Extended.Tweening/Tween.cs:23-27 | the member's current value becomes the start, and the range spans exactly from start to end |
| Tweening.Interpolate | MonoGame.Extended.Tweening/Tween.cs:29-33 | only the member changes; on an initialised tween fraction 0 puts it on the start and fraction 1 exactly on the end |
| Tweening.Swap | MonoGame.Extended.Tweening/Tween.cs:35-39 | the old start becomes the end and the member the new start, with the range re-spanned; a member resting on the old end exchanges start and end and negates the range |
| Tweening.Easing | MonoGame.Extended.Tweening/Tween.cs:77 | the easing applied afterwards is the given delegate at every completion, or linear when the delegate is null (none); only the easing in the configuration changes |
| Tweening.OnBegin | MonoGame.Extended.Tweening/Tween.cs:78 | the begin callback is registered, or unregistered by a null action; nothing else changes |
| Tweening.OnEnd | MonoGame.Extended.Tweening/Tween.cs:79 | the end callback is registered, or unregistered by a null action; nothing else changes |
| Tweening.Pause | MonoGame.Extended.Tweening/Tween.cs:80 | the tween is paused and no longer active; nothing else changes |
| Tweening.Resume | MonoGame.Extended.Tweening/Tween.cs:81 | the tween is unpaused and active exactly when it is alive; nothing else changes |
| Tweening.Repeat | MonoGame.Extended.Tweening/Tween.cs:83-88 | the tween repeats iff the count is non-zero and forever iff it is negative; the count is the given one, and only the count and repeat delay change |
| Tweening.RepeatForever | MonoGame.Extended.Tweening/Tween.cs:90-95 | the count becomes −1, so the tween repeats forever, with the given repeat delay; only the count and repeat delay change |
| Tweening.AutoReverse | MonoGame.Extended.Tweening/Tween.cs:97-104 | the tween auto-reverses and repeats; a zero count becomes 1, any other count (finite or forever) is kept; only the count and the auto-reverse flag change |
| Tweening.Cancel | MonoGame.Extended.Tweening/Tween.cs:110-114 | the tween is dead with no repeats left; nothing else changes |
| Tweening.CancelAndComplete | MonoGame.Extended.Tweening/Tween.cs:116-128 | the tween ends dead; if it was alive it is complete with completion 1, the member at start + range and onEnd fired, and nothing else changes (elapsed, delay, values, configuration and pause flag are kept); otherwise it is just cancelled |
| Tweening.CancelAndCompleteFixed | MonoGame.Extended.Tweening/Tween.cs:116-128 | like CancelAndComplete, with the same frame, but an alive tween that never began is first initialised (start = member), so its member always lands on the end value, even before its first update |
| Tweening.CountDown | MonoGame.Extended.Tweening/Tween.cs:135-141 | a positive remaining delay is reduced by the frame time; a used-up (non-positive) delay is left as it is; nothing else changes |
| Tweening.BeginIfFirst | MonoGame.Extended.Tweening/Tween.cs:143-148 | afterwards the tween is initialised; a first initialisation captures the member as start, keeps the end value, spans the range between them and fires onBegin; a later one changes nothing |
| Tweening.RestartIfComplete | MonoGame.Extended.Tweening/Tween.cs:150-158 | a completed run is restarted: not complete, elapsed 0, onBegin fired, direction swapped only when auto-reversing; an incomplete tween is untouched |
| Tweening.EndRun | MonoGame.Extended.Tweening/Tween.cs:167-183 | completion 1 and complete; a positive count drops by one and re-arms the repeat delay, a negative count stays, a zero count kills the tween |
| Tweening.Advance | MonoGame.Extended.Tweening/Tween.cs:160-188 | elapsed grows by dt; the run completes iff elapsed reaches the duration, with the member on start + range regardless of easing and onEnd fired; otherwise the member is at the eased completion fraction of the range |
| Tweening.Update | MonoGame.Extended.Tweening/Tween.cs:130-141 | a paused or dead tween is left entirely unchanged; a step inside the delay changes only the remaining delay; configuration never changes and initialisation is never undone |
| Tweening.Completion | MonoGame.Extended.Tweening/Tween.cs:65 | the reported completion always lies in [0, 1] and equals the raw completion whenever that does |
| TweenProperties.UpdatePastDelay | MonoGame.Extended.Tweening/Tween.cs:143-167 | a step past the delay initialises, sets elapsed to the previous run's elapsed (0 after a completion) plus dt, completes iff the duration is reached, and appends exactly the begin/begin/end events that are due, in order |
| TweenProperties.UpdateEndsRun | MonoGame.Extended.Tweening/Tween.cs:167-188 | the completing step reports completion 1, puts the member exactly on the end value whatever the easing, fires onEnd last, and decrements / keeps / exhausts the repeat count |
| TweenProperties.UpdateMidRun | MonoGame.Extended.Tweening/Tween.cs:160-165 | a step inside a run keeps the tween alive and its count, leaves the delay used up so no later frame is delayed, with completion elapsed / duration and the member at start + range × eased completion |
| TweenProperties.FirstUpdateInitializes | MonoGame.Extended.Tweening/Tween.cs:143-148 | the first step past the delay captures start = member and range = end − start, and fires onBegin before anything else |
| TweenProperties.UpdateRestartsRun | MonoGame.Extended.Tweening/Tween.cs:150-158 | after a completed run the next step restarts elapsed from 0 and fires onBegin first; with auto-reverse start and end are exchanged, without it they stay |
| TweenProperties.UpdatePreservesInv | MonoGame.Extended.Tweening/Tween.cs:130-189 | every update keeps the reachable-state invariant |
| TweenProperties.ConfigurationPreservesInv | MonoGame.Extended.Tweening/Tween.cs:77-128 | every builder operation, Cancel and both CancelAndComplete forms keep the invariant |
| TweenProperties.EmittedEnds | MonoGame.Extended.Tweening/Tween.cs:187-188 | an update invokes onEnd once exactly when it completes a run with the callback registered, and never otherwise |
| TweenProperties.UpdateSpendsBudget | MonoGame.Extended.Tweening/Tween.cs:167-179 | with a finite count, one update spends one run of the remaining budget exactly when it completes a run, and none otherwise, with or without an onEnd callback |
| TweenProperties.RunSpendsBudget | MonoGame.Extended.Tweening/Tween.cs:167-179 | over any sequence of frames a tween with a budget of n runs completes at most n, and is dead exactly when it has completed all n; completions are counted whether or not onEnd is registered |
| TweenProperties.EndsCountCompletions | MonoGame.Extended.Tweening/Tween.cs:184-188 | with onEnd registered, over any sequence of frames the callback is invoked exactly once per completed run |
| TweenProperties.RepeatGivesKPlusOneRuns | MonoGame.Extended.Tweening/Tween.cs:83-88 | after Repeat(k) with k ≥ 0 a tween completes at most k + 1 runs and dies exactly when it has completed k + 1 |
| TweenProperties.AutoReverseGivesTwoRuns | MonoGame.Extended.Tweening/Tween.cs:97-104 | AutoReverse on a tween without repeats gives exactly two completed runs before it dies (the way back is stated by AutoReverseThereAndBack and UpdateRestartsRun) |
| TweenProperties.SwapRoundTrip | MonoGame.Extended.Tweening/Tween.cs:35-39 | swapping, carrying the member to the new end, and swapping again restores the original start, end and range |
| TweenProperties.AutoReverseThereAndBack | MonoGame.Extended.Tweening/Tween.cs:97-104 | an auto-reversing tween without delay, given two frames of one duration, has its member on the end value after the first and back on the original value, dead, after the second |
| TweenProperties.RepeatForeverStaysAlive | MonoGame.Extended.Tweening/Tween.cs:90-95 | a tween repeating forever stays alive and repeating through any sequence of frames |
| TweenProperties.PauseFreezesAndResumeRestores | MonoGame.Extended.Tweening/Tween.cs:80-81 | a paused tween ignores updates, and Resume undoes Pause (and Pause undoes Resume) |
| TweenProperties.CancelIsIdempotent | MonoGame.Extended.Tweening/Tween.cs:110-114 | cancelling twice is cancelling once, and a cancelled tween ignores updates and CancelAndComplete |
| TweenProperties.CancelAndCompleteLandsOnEnd | MonoGame.Extended.Tweening/Tween.cs:116-128 | an initialised alive tween lands exactly on the end value, and there the as-written and corrected operations agree |
| TweenProperties.CancelAndCompleteBeforeFirstUpdate | MonoGame.Extended.Tweening/Tween.cs:116-128 | on a fresh tween with a non-zero end value, the operation as written puts the member on 0, not on the end value; the corrected one lands on the end value |
| TweenProperties.TimeRemainingAtCompletion | MonoGame.Extended.Tweening/Tween.cs:64 | after a step past the delay the time remaining is the duration minus the elapsed duration, and it is at most 0 exactly when the run is complete |
| Power.PowOfNegation | MonoGame.Extended.Tweening/EasingFunctions.cs:104-105 | negating the base keeps an even power and negates an odd one, which is what the parity sign compensates for |
| Power.PowUnitInterval | MonoGame.Extended.Tweening/EasingFunctions.cs:97-100 | a power of a number in [0, 1] stays in [0, 1] |
| Power.InEndpoints | MonoGame.Extended.Tweening/EasingFunctions.cs:97-100 | In maps 0 to 0 and 1 to 1 for every positive power |
| Power.OutEndpoints | MonoGame.Extended.Tweening/EasingFunctions.cs:102-106 | Out maps 0 to 0 and 1 to 1 for even and odd powers alike |
| Power.InOutBranchesAgree | MonoGame.Extended.Tweening/EasingFunctions.cs:110-116 | at the switch point s = 1 the first branch's formula and the second branch's give the same value |
| Power.InOutEndpoints | MonoGame.Extended.Tweening/EasingFunctions.cs:108-117 | InOut maps 0 to 0, 0.5 to 0.5 and 1 to 1 |
| EasingFunctions.LinearIsIdentity | MonoGame.Extended.Tweening/EasingFunctions.cs:8 | Linear is the identity, equal to the first power, and fixes 0, 0.5 and 1 |
| EasingFunctions.CubicEasingsFixEndpoints | MonoGame.Extended.Tweening/EasingFunctions.cs:10-12 | CubicIn, CubicOut and CubicInOut fix 0 and 1; CubicInOut also fixes 0.5 |
| EasingFunctions.QuadraticEasingsFixEndpoints | MonoGame.Extended.Tweening/EasingFunctions.cs:14-16 | QuadraticIn, QuadraticOut and QuadraticInOut fix 0 and 1; QuadraticInOut also fixes 0.5 |
| EasingFunctions.QuarticEasingsFixEndpoints | MonoGame.Extended.Tweening/EasingFunctions.cs:18-20 | QuarticIn, QuarticOut and QuarticInOut fix 0 and 1; QuarticInOut also fixes 0.5 |
| EasingFunctions.QuinticEasingsFixEndpoints | MonoGame.Extended.Tweening/EasingFunctions.cs:22-24 | QuinticIn, QuinticOut and QuinticInOut fix 0 and 1; QuinticInOut also fixes 0.5 |
| EasingFunctions.NamedInEasingsStayInUnitInterval | MonoGame.Extended.Tweening/EasingFunctions.cs:10-22 | QuadraticIn, CubicIn, QuarticIn and QuinticIn map [0, 1] into [0, 1] |
| EasingFunctions.OutFixesEndpoints | MonoGame.Extended.Tweening/EasingFunctions.cs:82-85 | if f fixes 0 and 1, so does Out(·, f) |
| EasingFunctions.OutIsInvolution | MonoGame.Extended.Tweening/EasingFunctions.cs:82-85 | applying Out twice gives back the original easing |
| EasingFunctions.OutStaysInUnitInterval | MonoGame.Extended.Tweening/EasingFunctions.cs:82-85 | Out keeps an easing that maps [0, 1] into [0, 1] inside [0, 1] |
| EasingFunctions.InOutFixesEndpoints | MonoGame.Extended.Tweening/EasingFunctions.cs:87-93 | if f fixes 0 and 1, InOut(·, f) maps 0 to 0, 0.5 to 0.5 (through the second branch) and 1 to 1 |
| EasingFunctions.InOutPointSymmetric | MonoGame.Extended.Tweening/EasingFunctions.cs:87-93 | if f(1) = 1, InOut(·, f) is point-symmetric about (0.5, 0.5) |
| EasingFunctions.InOutStaysInUnitInterval | MonoGame.Extended.Tweening/EasingFunctions.cs:87-93 | InOut keeps an easing that maps [0, 1] into [0, 1] inside [0, 1] |
| EasingFunctions.PowerOutIsOutOfIn | MonoGame.Extended.Tweening/EasingFunctions.cs:102-106 | Power.Out(v, p) equals the Out combinator applied to Power.In at every v and p: the parity sign is exactly a reflection |
| EasingFunctions.PowerInOutIsInOutOfIn | MonoGame.Extended.Tweening/EasingFunctions.cs:108-117 | Power.InOut(v, p) equals the InOut combinator applied to Power.In at every v and p |
| EasingFunctions.BounceInEndpoints | MonoGame.Extended.Tweening/EasingFunctions.cs:61-79 | BounceIn maps 0 to 0 and 1 to 1 |
| EasingFunctions.BounceInJoins | MonoGame.Extended.Tweening/EasingFunctions.cs:61-79 | neighbouring quadratic pieces meet at the breakpoints 1/2.75, 2/2.75 and 2.5/2.75, where both are 0, so BounceIn is continuous and touches 0 there |
| EasingFunctions.BounceInStaysInUnitInterval | MonoGame.Extended.Tweening/EasingFunctions.cs:61-79 | BounceIn maps [0, 1] into [0, 1] |
| EasingFunctions.BounceOutAndInOutEndpoints | MonoGame.Extended.Tweening/EasingFunctions.cs:58-59 | BounceOut and BounceInOut fix 0 and 1, and BounceInOut maps 0.5 to 0.5 |

## Left out

- The transcendental easings `SineIn/Out/InOut`, `ExponentialIn/Out/InOut`, `CircleIn/Out/InOut`, `ElasticIn/Out/InOut` and `BackIn/Out/InOut` (EasingFunctions.cs:26-56) are not modelled. They depend on `Math.Sin`, `Math.Exp`, `Math.Sqrt`, `Math.Pow` with real exponents and `MathHelper`. Over exact reals these could only be uninterpreted functions.
- IEEE-754 double rounding is not modelled. Everything is exact real arithmetic. The float literals used (2.75, 1.5, 2.25, 2.625, 0.5) are exact binary fractions.
- A tween with `Duration` ≤ 0 is not modelled. `Update` requires a positive duration because the completion is elapsed / Duration. In the source, with a non-negative frame time the elapsed duration already reaches `Duration`, so an infinite or NaN (Duration = 0) or finite non-positive (Duration < 0) completion is only handed to the easing delegate and then overwritten by 1: the tween completes, member on the end value, on its first step past the delay.
- `TweenMember<T>` (reflection-based member access and the generic add/subtract/multiply) is not part of this model. `Tween<T>` is specialised to one real-valued member stored in the record.
- Writes to the member by code other than this tween are not modelled. The exchange done by `Swap` relies on the member still holding the old end value.
- `Target` and `MemberName` are not modelled. They only identify the member.
- Callback bodies (`Action<Tween>`) are not modelled, only their invocations. A callback that re-enters the tween, for example one that cancels it from `onEnd`, is outside the model.
- The easing delegate is any total function from reals to reals. Its body is not modelled.
- `TweenHelper.Clamp` is not part of this model. `Completion` uses the usual clamp to [0, 1].
- The `Tweener` that owns tweens and calls `Update` each frame is not part of this model. A sequence of frame times (`Run`) stands in for it.
- Power.In: the exponent is a natural number. The source takes an `int`, but its class is private and only called with 2 to 5. The endpoint lemmas require a positive power, because `Math.Pow(0, 0)` is 1.
- Tweening.Interpolate: the endpoint facts are stated only for an initialised tween that satisfies the invariant. Before initialisation the start and range hold their defaults of 0.

## Findings

| source | as written | input that shows it | evidently intended | confidence | as-written member | corrected member |
|---|---|---|---|---|---|---|
| MonoGame.Extended.Tweening/Tween.cs:116-128 | `CancelAndComplete` calls `Interpolate(1)` even when `Initialize` has never run, so it uses the default start and range of 0 | a new tween (duration 1, delay 0.5, member m, end value e ≠ 0) cancelled and completed before any update gets past its delay ends with the member at 0 | the member lands on the end value, as it does for a tween that has begun | not executed; medium (the name and the initialised case both say "jump to the end") | TweenProperties.CancelAndCompleteBeforeFirstUpdate | Tweening.CancelAndCompleteFixed |
