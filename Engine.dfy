/**
  The few engine collaborators the gameplay code relies on, reduced to values:
  actor and component identities (a null pointer is `None`), the rotator
  record, and the scalar helpers of the engine's math library.
  Floating point is modelled by `real`.
 */
module Engine {

  /** Identity of an actor in the level. */
  type ActorId = nat

  /** Identity of a primitive (physics) component of some actor. */
  type ComponentId = nat

  /** A nullable reference: `None` plays the part of `nullptr`. */
  datatype Option<+T> = None | Some(value: T)

  /** An engine rotator, in degrees. Only `yaw` is ever changed by the core. */
  datatype Rotator = Rotator(pitch: real, yaw: real, roll: real)

  function Abs(x: real): (r: real)
    ensures r >= 0.0
    ensures r == x || r == -x
  {
    if x < 0.0 then -x else x
  }

  /** `x` lies in the closed interval spanned by `a` and `b`, whichever is larger. */
  predicate Between(x: real, a: real, b: real)
  {
    (a <= x <= b) || (b <= x <= a)
  }

  /**
    Linear interpolation `a + t*(b-a)`. For a factor in [0,1] the result lies
    between the two ends and is no farther from `b` than `a` was; the distance
    left to `b` is scaled by exactly `1 - t`.
   */
  function Lerp(a: real, b: real, t: real): (r: real)
    ensures b - r == (1.0 - t) * (b - a)
    ensures t == 0.0 ==> r == a
    ensures t == 1.0 ==> r == b
    ensures 0.0 <= t <= 1.0 ==> Between(r, a, b)
    ensures 0.0 <= t <= 1.0 ==> Abs(b - r) == (1.0 - t) * Abs(b - a)
  {
    var r := a + t * (b - a);
    assert b - r == (1.0 - t) * (b - a);
    if 0.0 <= t <= 1.0 then ScaleAbs(b - a, 1.0 - t); Scale(b - a, t); r else r
  }

  /** |k*d| == k*|d| for a non-negative k. */
  lemma ScaleAbs(d: real, k: real)
    requires k >= 0.0
    ensures Abs(k * d) == k * Abs(d)
  {
    if d < 0.0 {
      assert k * d <= 0.0;
    } else {
      assert k * d >= 0.0;
    }
  }

  /** A fraction in [0,1] of d lies between 0 and d. */
  lemma Scale(d: real, t: real)
    requires 0.0 <= t <= 1.0
    ensures Between(t * d, 0.0, d)
  {
    if d >= 0.0 {
      assert t * d <= 1.0 * d;
    } else {
      assert t * d >= 1.0 * d;
    }
  }

  /** Round half up to a whole number, kept as a real: `floor(x + 0.5)`. */
  function RoundToFloat(x: real): (r: real)
    ensures r == r.Floor as real
    ensures x - 0.5 < r <= x + 0.5
  {
    (x + 0.5).Floor as real
  }
}
