/** What both stop-profile generators have in common. */
module StopProfile {
  import opened Numeric

  datatype TrajectoryPoint = TrajectoryPoint(
    time: real,
    speed: real,
    accel: real,
    jerk: real,
    distance: real)

  /** The arguments of a generator; the plain generator does not look at `jerk`. */
  datatype StopRequest = StopRequest(initialSpeed: real, decel: real, jerk: real, dt: real)
  {
    /** Both generators start from the forward part of the measured speed. */
    function Entry(): (v: real)
      ensures 0.0 <= v
    {
      Max(0.0, initialSpeed)
    }

    predicate Plain() {
      0.0 < dt && 0.0 < decel
    }

    /** What one period at full deceleration takes off the speed. */
    function Drop(): (d: real)
      requires Plain()
      ensures 0.0 < d
    {
      decel * dt
    }

    predicate JerkLimited() {
      Plain() && 0.0 < jerk
    }
  }

  /** Distance covered in one period during which the speed falls linearly from `v` to `w`. */
  function Advance(v: real, w: real, dt: real): real {
    ((v + w) * 0.5) * dt
  }

  lemma AdvanceOrder(v: real, w: real, v': real, w': real, dt: real)
    requires 0.0 < dt && v <= v' && w <= w'
    ensures Advance(v, w, dt) <= Advance(v', w', dt)
  {
    ProductSign(v' + w' - v - w, dt);
    assert Advance(v', w', dt) - Advance(v, w, dt) == ((v' + w' - v - w) * dt) * 0.5;
  }
}
