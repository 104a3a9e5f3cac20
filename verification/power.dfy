/**
  The integer-power easing family (the private static class `Power` of
  MonoGame.Extended.Tweening/EasingFunctions.cs), over exact reals.
  `Math.Pow(x, power)` with an integral exponent is modelled by `Pow`.
 */
module Power {

  /** x raised to the natural power n. */
  function Pow(x: real, n: nat): real
    decreases n
  {
    if n == 0 then 1.0 else x * Pow(x, n - 1)
  }

  /** -1 for an even power and +1 for an odd one, as Out and InOut choose it. */
  function Sign(power: nat): real
  {
    if power % 2 == 0 then -1.0 else 1.0
  }

  function In(value: real, power: nat): real
  {
    Pow(value, power)
  }

  function Out(value: real, power: nat): real
  {
    Sign(power) * (Pow(value - 1.0, power) + Sign(power))
  }

  function InOut(s: real, power: nat): real
  {
    var s2 := s * 2.0;
    if s2 < 1.0 then In(s2, power) / 2.0
    else Sign(power) / 2.0 * (Pow(s2 - 2.0, power) + Sign(power) * 2.0)
  }

  /** Negating the base flips the sign of an odd power and keeps an even one. */
  lemma {:induction false} PowOfNegation(x: real, n: nat)
    ensures Pow(-x, n) == if n % 2 == 0 then Pow(x, n) else -Pow(x, n)
    decreases n
  {
    if n > 0 {
      PowOfNegation(x, n - 1);
    }
  }

  /** 1 is fixed by every power, 0 by every positive one. */
  lemma {:induction false} PowOfZeroAndOne(n: nat)
    ensures Pow(1.0, n) == 1.0
    ensures n >= 1 ==> Pow(0.0, n) == 0.0
    decreases n
  {
    if n > 0 {
      PowOfZeroAndOne(n - 1);
    }
  }

  /** A power of a number in [0, 1] stays in [0, 1]. */
  lemma {:induction false} PowUnitInterval(x: real, n: nat)
    requires 0.0 <= x <= 1.0
    ensures 0.0 <= Pow(x, n) <= 1.0
    decreases n
  {
    if n > 0 {
      PowUnitInterval(x, n - 1);
      var p := Pow(x, n - 1);
      assert Pow(x, n) == x * p;
      assert 0.0 <= x * p by {
        MulNonNegative(x, p);
      }
      assert x * p <= p by {
        MulNonNegative(1.0 - x, p);
      }
    }
  }

  /** The product of two non-negative reals is non-negative. */
  lemma MulNonNegative(a: real, b: real)
    requires 0.0 <= a && 0.0 <= b
    ensures 0.0 <= a * b
  {
  }

  /** `In(v, p) = v^p` maps 0 to 0 and 1 to 1 for every positive power. */
  lemma InEndpoints(power: nat)
    requires power >= 1
    ensures In(0.0, power) == 0.0 && In(1.0, power) == 1.0
  {
    PowOfZeroAndOne(power);
  }

  /** The parity-dependent sign makes Out map 0 to 0 and 1 to 1 for even and odd powers alike. */
  lemma OutEndpoints(power: nat)
    requires power >= 1
    ensures Out(0.0, power) == 0.0 && Out(1.0, power) == 1.0
  {
    PowOfZeroAndOne(power);
    PowOfNegation(1.0, power);
  }

  /** At the switch point s = 1 (value 0.5) the first branch's formula and the second's agree. */
  lemma InOutBranchesAgree(power: nat)
    requires power >= 1
    ensures In(1.0, power) / 2.0 == Sign(power) / 2.0 * (Pow(1.0 - 2.0, power) + Sign(power) * 2.0)
  {
    PowOfZeroAndOne(power);
    PowOfNegation(1.0, power);
  }

  /** InOut maps 0 to 0, 0.5 to 0.5 and 1 to 1. */
  lemma InOutEndpoints(power: nat)
    requires power >= 1
    ensures InOut(0.0, power) == 0.0
    ensures InOut(0.5, power) == 0.5
    ensures InOut(1.0, power) == 1.0
  {
    PowOfZeroAndOne(power);
    PowOfNegation(1.0, power);
  }
}
