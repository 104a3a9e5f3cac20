/**
  The exactly representable easing functions of
  MonoGame.Extended.Tweening/EasingFunctions.cs over exact reals: Linear, the
  named power easings, the Out/InOut combinators and the Bounce family.
  An easing maps the completion fraction of a tween to the fraction of the
  value range it has covered.
 */
module EasingFunctions {
  import Power

  function Linear(value: real): real
  {
    value
  }

  function CubicIn(value: real): real { Power.In(value, 3) }
  function CubicOut(value: real): real { Power.Out(value, 3) }
  function CubicInOut(value: real): real { Power.InOut(value, 3) }

  function QuadraticIn(value: real): real { Power.In(value, 2) }
  function QuadraticOut(value: real): real { Power.Out(value, 2) }
  function QuadraticInOut(value: real): real { Power.InOut(value, 2) }

  function QuarticIn(value: real): real { Power.In(value, 4) }
  function QuarticOut(value: real): real { Power.Out(value, 4) }
  function QuarticInOut(value: real): real { Power.InOut(value, 4) }

  function QuinticIn(value: real): real { Power.In(value, 5) }
  function QuinticOut(value: real): real { Power.Out(value, 5) }
  function QuinticInOut(value: real): real { Power.InOut(value, 5) }

  /** Reflects an easing through the point (0.5, 0.5): run it backwards, upside down. */
  function Out(value: real, easing: real -> real): real
  {
    1.0 - easing(1.0 - value)
  }

  /** The first half plays `easing` squeezed into [0, 0.5], the second half its Out form. */
  function InOut(value: real, easing: real -> real): real
  {
    if value < 0.5 then 0.5 * easing(value * 2.0)
    else 1.0 - 0.5 * easing(2.0 - value * 2.0)
  }

  const BounceConst1: real := 2.75
  const BounceConst2: real := Power.Pow(BounceConst1, 2)

  /** The four quadratic pieces of BounceIn, as functions of the flipped input x = 1 - value. */
  function BigBounce(x: real): real
  {
    1.0 - BounceConst2 * x * x
  }

  function SecondBounce(x: real): real
  {
    1.0 - (BounceConst2 * Power.Pow(x - 1.5 / BounceConst1, 2) + 0.75)
  }

  function ThirdBounce(x: real): real
  {
    1.0 - (BounceConst2 * Power.Pow(x - 2.25 / BounceConst1, 2) + 0.9375)
  }

  function SmallBounce(x: real): real
  {
    1.0 - (BounceConst2 * Power.Pow(x - 2.625 / BounceConst1, 2) + 0.984375)
  }

  function BounceIn(value: real): real
  {
    var x := 1.0 - value;
    if x < 1.0 / BounceConst1 then BigBounce(x)
    else if x < 2.0 / BounceConst1 then SecondBounce(x)
    else if x < 2.5 / BounceConst1 then ThirdBounce(x)
    else SmallBounce(x)
  }

  function BounceOut(value: real): real
  {
    Out(value, BounceIn)
  }

  function BounceInOut(value: real): real
  {
    InOut(value, BounceIn)
  }

  /** An easing that starts at 0 and finishes at 1. */
  ghost predicate FixesEndpoints(f: real -> real)
  {
    f(0.0) == 0.0 && f(1.0) == 1.0
  }

  /** An easing that never leaves [0, 1] on [0, 1]. */
  ghost predicate StaysInUnitInterval(f: real -> real)
  {
    forall x :: 0.0 <= x <= 1.0 ==> 0.0 <= f(x) <= 1.0
  }

  /** Linear is the identity: the first power, fixing 0, 0.5 and 1. */
  lemma LinearIsIdentity(value: real)
    ensures Linear(value) == value
    ensures Linear(value) == Power.In(value, 1)
    ensures FixesEndpoints(Linear) && Linear(0.5) == 0.5
  {
  }

  /** Out keeps both endpoints of an easing that fixes them. */
  lemma OutFixesEndpoints(f: real -> real)
    requires FixesEndpoints(f)
    ensures FixesEndpoints(x => Out(x, f))
  {
  }

  /** Out is its own inverse: reflecting twice gives back the original easing. */
  lemma OutIsInvolution(f: real -> real, value: real)
    ensures Out(value, x => Out(x, f)) == f(value)
  {
  }

  /** Out keeps an easing inside the unit square. */
  lemma OutStaysInUnitInterval(f: real -> real)
    requires StaysInUnitInterval(f)
    ensures StaysInUnitInterval(x => Out(x, f))
  {
  }

  /** InOut maps 0 to 0, 0.5 to 0.5 (through its second branch) and 1 to 1. */
  lemma InOutFixesEndpoints(f: real -> real)
    requires FixesEndpoints(f)
    ensures InOut(0.0, f) == 0.0
    ensures InOut(0.5, f) == 0.5
    ensures InOut(1.0, f) == 1.0
  {
  }

  /** With f(1) = 1, InOut is point-symmetric about (0.5, 0.5). */
  lemma InOutPointSymmetric(f: real -> real, value: real)
    requires f(1.0) == 1.0
    ensures InOut(1.0 - value, f) == 1.0 - InOut(value, f)
  {
  }

  /** InOut keeps an easing inside the unit square. */
  lemma InOutStaysInUnitInterval(f: real -> real)
    requires StaysInUnitInterval(f)
    ensures StaysInUnitInterval(x => InOut(x, f))
  {
  }

  /** Power.Out is the Out combinator applied to Power.In: the parity sign is exactly a reflection. */
  lemma PowerOutIsOutOfIn(value: real, power: nat)
    ensures Power.Out(value, power) == Out(value, x => Power.In(x, power))
  {
    Power.PowOfNegation(1.0 - value, power);
    assert value - 1.0 == -(1.0 - value);
  }

  /** Power.InOut is the InOut combinator applied to Power.In. */
  lemma PowerInOutIsInOutOfIn(value: real, power: nat)
    ensures Power.InOut(value, power) == InOut(value, x => Power.In(x, power))
  {
    Power.PowOfNegation(2.0 - value * 2.0, power);
    assert value * 2.0 - 2.0 == -(2.0 - value * 2.0);
  }

  /** CubicIn, CubicOut and CubicInOut map 0 to 0 and 1 to 1; CubicInOut also maps 0.5 to 0.5. */
  lemma CubicEasingsFixEndpoints()
    ensures FixesEndpoints(CubicIn) && FixesEndpoints(CubicOut)
    ensures FixesEndpoints(CubicInOut) && CubicInOut(0.5) == 0.5
  {
  }

  /** QuadraticIn, QuadraticOut and QuadraticInOut map 0 to 0 and 1 to 1; QuadraticInOut also maps 0.5 to 0.5. */
  lemma QuadraticEasingsFixEndpoints()
    ensures FixesEndpoints(QuadraticIn) && FixesEndpoints(QuadraticOut)
    ensures FixesEndpoints(QuadraticInOut) && QuadraticInOut(0.5) == 0.5
  {
  }

  /** QuarticIn, QuarticOut and QuarticInOut map 0 to 0 and 1 to 1; QuarticInOut also maps 0.5 to 0.5. */
  lemma QuarticEasingsFixEndpoints()
    ensures FixesEndpoints(QuarticIn) && FixesEndpoints(QuarticOut)
    ensures FixesEndpoints(QuarticInOut) && QuarticInOut(0.5) == 0.5
  {
  }

  /** QuinticIn, QuinticOut and QuinticInOut map 0 to 0 and 1 to 1; QuinticInOut also maps 0.5 to 0.5. */
  lemma QuinticEasingsFixEndpoints()
    ensures FixesEndpoints(QuinticIn) && FixesEndpoints(QuinticOut)
    ensures FixesEndpoints(QuinticInOut) && QuinticInOut(0.5) == 0.5
  {
  }

  /** The named In easings keep the unit interval. */
  lemma NamedInEasingsStayInUnitInterval()
    ensures StaysInUnitInterval(QuadraticIn) && StaysInUnitInterval(CubicIn)
    ensures StaysInUnitInterval(QuarticIn) && StaysInUnitInterval(QuinticIn)
  {
    forall x | 0.0 <= x <= 1.0
      ensures 0.0 <= Power.Pow(x, 2) <= 1.0 && 0.0 <= Power.Pow(x, 3) <= 1.0
      ensures 0.0 <= Power.Pow(x, 4) <= 1.0 && 0.0 <= Power.Pow(x, 5) <= 1.0
    {
      Power.PowUnitInterval(x, 2);
      Power.PowUnitInterval(x, 3);
      Power.PowUnitInterval(x, 4);
      Power.PowUnitInterval(x, 5);
    }
  }

  /** BounceIn starts at 0 and finishes at 1. */
  lemma BounceInEndpoints()
    ensures BounceIn(0.0) == 0.0
    ensures BounceIn(1.0) == 1.0
  {
  }

  /**
    The four pieces meet at the breakpoints 1/2.75, 2/2.75 and 2.5/2.75 of the
    flipped input, where both neighbours are 0, so BounceIn is continuous and
    touches the floor at each bounce.
   */
  lemma BounceInJoins()
    ensures BigBounce(1.0 / BounceConst1) == 0.0 == SecondBounce(1.0 / BounceConst1)
    ensures SecondBounce(2.0 / BounceConst1) == 0.0 == ThirdBounce(2.0 / BounceConst1)
    ensures ThirdBounce(2.5 / BounceConst1) == 0.0 == SmallBounce(2.5 / BounceConst1)
    ensures BounceIn(1.0 - 1.0 / BounceConst1) == 0.0
    ensures BounceIn(1.0 - 2.0 / BounceConst1) == 0.0
    ensures BounceIn(1.0 - 2.5 / BounceConst1) == 0.0
  {
  }

  /** A number within b of 0 has a square of at most b squared. */
  lemma SquareBound(d: real, b: real)
    requires -b <= d <= b
    ensures 0.0 <= d * d <= b * b
  {
  }

  /** BounceIn stays in [0, 1] on [0, 1]: every piece lies between the floor and its peak. */
  lemma BounceInStaysInUnitInterval()
    ensures StaysInUnitInterval(BounceIn)
  {
    assert BounceConst2 == 7.5625;
    forall value | 0.0 <= value <= 1.0
      ensures 0.0 <= BounceIn(value) <= 1.0
    {
      var x := 1.0 - value;
      if x < 1.0 / BounceConst1 {
        SquareBound(x, 4.0 / 11.0);
        assert BounceIn(value) == 1.0 - 7.5625 * (x * x);
      } else if x < 2.0 / BounceConst1 {
        var d := x - 1.5 / BounceConst1;
        SquareBound(d, 2.0 / 11.0);
        assert BounceIn(value) == 1.0 - (7.5625 * (d * d) + 0.75);
      } else if x < 2.5 / BounceConst1 {
        var d := x - 2.25 / BounceConst1;
        SquareBound(d, 1.0 / 11.0);
        assert BounceIn(value) == 1.0 - (7.5625 * (d * d) + 0.9375);
      } else {
        var d := x - 2.625 / BounceConst1;
        SquareBound(d, 0.5 / 11.0);
        assert BounceIn(value) == 1.0 - (7.5625 * (d * d) + 0.984375);
      }
    }
  }

  /** BounceOut and BounceInOut inherit the endpoints, and BounceInOut passes through (0.5, 0.5). */
  lemma BounceOutAndInOutEndpoints()
    ensures FixesEndpoints(BounceOut)
    ensures FixesEndpoints(BounceInOut) && BounceInOut(0.5) == 0.5
  {
  }
}
