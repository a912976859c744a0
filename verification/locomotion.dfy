/** Quake-style acceleration (`Accelerate`) and the wish speed fed to it
    (`GroundMove`, `AirMove`). The wish direction arrives already normalised. */
module Locomotion {
  import opened Vectors
  import Mathf

  /** `wishDirection.sqrMagnitude * _currentSpeed`. */
  function WishSpeed(wishDirection: Vec3, currentSpeed: real): real {
    SqrMagnitude(wishDirection) * currentSpeed
  }

  /** Because the direction is normalised before it is squared, the wish speed
      is all or nothing: the full current speed, or zero when there is no input. */
  lemma WishSpeedIsAllOrNothing(wishDirection: Vec3, currentSpeed: real)
    requires UnitOrZero(wishDirection)
    ensures WishSpeed(wishDirection, currentSpeed) == currentSpeed
         || WishSpeed(wishDirection, currentSpeed) == 0.0
    ensures wishDirection != Zero ==> WishSpeed(wishDirection, currentSpeed) == currentSpeed
  {
    var m := SqrMagnitude(wishDirection);
    if wishDirection == Zero {
      assert m == 0.0;
      ZeroTimes(m, currentSpeed);
    } else {
      OneTimes(m, currentSpeed);
    }
  }

  // Arithmetic step: a zero squared length cancels the current speed.
  lemma ZeroTimes(m: real, c: real)
    requires m == 0.0
    ensures m * c == 0.0
  {
  }

  // Arithmetic step: a unit squared length passes the current speed through.
  lemma OneTimes(m: real, c: real)
    requires m == 1.0
    ensures m * c == c
  {
  }

  /** The speed added along the wish direction: `acceleration * deficit * delta`,
      but never more than the deficit itself. */
  function Gain(acceleration: real, deficit: real, delta: real): (g: real)
    ensures g <= deficit && g <= acceleration * deficit * delta
    ensures g == deficit || g == acceleration * deficit * delta
  {
    Mathf.Min(acceleration * deficit * delta, deficit)
  }

  /** `Accelerate`: pushes `velocity` toward `wishSpeed` along `direction`,
      changing only the horizontal components. */
  function Accelerate(velocity: Vec3, direction: Vec3, wishSpeed: real, acceleration: real, delta: real): (r: Vec3)
    // vertical speed is never touched
    ensures r.y == velocity.y
    // already fast enough along the wish direction: nothing changes
    ensures wishSpeed <= Dot(velocity, direction) ==> r == velocity
    // otherwise x and z move along the direction by the clamped gain
    ensures wishSpeed > Dot(velocity, direction) ==>
      var g := Gain(acceleration, wishSpeed - Dot(velocity, direction), delta);
      r.x == velocity.x + direction.x * g && r.z == velocity.z + direction.z * g
  {
    var deficit := wishSpeed - Dot(velocity, direction);
    if deficit <= 0.0 then velocity
    else
      var g := Gain(acceleration, deficit, delta);
      Vec3(velocity.x + direction.x * g, velocity.y, velocity.z + direction.z * g)
  }

  /** For a horizontal unit wish direction and non-negative rate and delta, the
      speed along the direction never decreases and never overshoots the wish
      speed; with `acceleration * delta >= 1` it lands exactly on it. */
  lemma AccelerateNeverOvershoots(velocity: Vec3, direction: Vec3, wishSpeed: real, acceleration: real, delta: real)
    requires SqrMagnitude(direction) == 1.0 && direction.y == 0.0
    requires acceleration >= 0.0 && delta >= 0.0
    ensures var before := Dot(velocity, direction);
            var after := Dot(Accelerate(velocity, direction, wishSpeed, acceleration, delta), direction);
            && before <= after
            && (before < wishSpeed ==> after <= wishSpeed)
            && (before < wishSpeed && acceleration * delta >= 1.0 ==> after == wishSpeed)
  {
    var before := Dot(velocity, direction);
    var r := Accelerate(velocity, direction, wishSpeed, acceleration, delta);
    if wishSpeed > before {
      var deficit := wishSpeed - before;
      var g := Gain(acceleration, deficit, delta);
      assert g >= 0.0 by {
        assert acceleration * delta >= 0.0;
        assert acceleration * deficit * delta == (acceleration * delta) * deficit;
      }
      assert Dot(r, direction) == before + g * (direction.x * direction.x + direction.z * direction.z);
      if acceleration * delta >= 1.0 {
        assert acceleration * deficit * delta >= deficit by {
          assert acceleration * deficit * delta == (acceleration * delta) * deficit;
        }
      }
    }
  }

  /** The clamp on the gain: for a positive deficit and non-negative rate and
      delta, the gain is at most the deficit, and it is the whole deficit
      exactly when `acceleration * delta >= 1`. */
  lemma GainClampsToDeficit(acceleration: real, deficit: real, delta: real)
    requires deficit > 0.0 && acceleration >= 0.0 && delta >= 0.0
    ensures 0.0 <= Gain(acceleration, deficit, delta) <= deficit
    ensures Gain(acceleration, deficit, delta) == deficit <==> acceleration * delta >= 1.0
  {
    var k := acceleration * delta;
    assert acceleration * deficit * delta == k * deficit;
    assert k >= 0.0;
    if k >= 1.0 {
      assert k * deficit >= 1.0 * deficit;
    } else {
      assert k * deficit < 1.0 * deficit;
    }
  }

  /** With the default ground acceleration 15, a 20 deficit over a 0.1 tick
      would gain 30 and is clamped to 20. */
  lemma DefaultGroundGainClamps()
    ensures Gain(15.0, 20.0, 0.1) == 20.0
  {
  }
}
