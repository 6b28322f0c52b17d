/** `TrajectoryValidator`: checks a sampled trajectory point by point. */
module TrajectoryValidation {
  import opened Numeric
  import opened SafetyEnvelope
  import opened StopProfile

  const EPSILON := 0.000000000001

  datatype Violation =
    | NoViolation
    | NullInput
    | EmptyTrajectory
    | NonMonotonicTime
    | SpeedOutOfBounds
    | AccelOutOfBounds
    | JerkOutOfBounds
    | NonMonotonicDistance
    | EnvelopeViolation

  datatype Verdict = Verdict(ok: bool, violation: Violation, failingIndex: nat)

  /** What a validator checks against; a negative obstacle distance means that none is set. */
  datatype Limits = Limits(config: Option<Envelope>, maxJerk: real, obstacle: real)
  {
    function MaxSpeed(): real {
      if config.Some? then Max(0.0, config.value.maxSpeed) else 0.0
    }

    function MaxAccel(): real {
      if config.Some? then Max(0.0, config.value.maxAccel) else 0.0
    }

    predicate ChecksEnvelope() {
      config.Some? && obstacle >= 0.0
    }

    function WithoutObstacle(): Limits {
      this.(obstacle := -1.0)
    }

    /** The checks that look at one point alone. */
    function CheckAlone(p: TrajectoryPoint): Violation {
      if MaxSpeed() > 0.0 && Abs(p.speed) > MaxSpeed() + EPSILON then SpeedOutOfBounds
      else if MaxAccel() > 0.0 && Abs(p.accel) > MaxAccel() + EPSILON then AccelOutOfBounds
      else if Abs(p.jerk) > maxJerk + EPSILON then JerkOutOfBounds
      else if ChecksEnvelope() && !Within(obstacle - p.distance, p.speed, config.value) then
        EnvelopeViolation
      else NoViolation
    }

    /** The first check that sample `i` fails. */
    function Check(points: seq<TrajectoryPoint>, i: nat): Violation
      requires i < |points|
    {
      if i > 0 && points[i].time <= points[i - 1].time then NonMonotonicTime
      else if i > 0 && points[i].distance + EPSILON < points[i - 1].distance then NonMonotonicDistance
      else CheckAlone(points[i])
    }

    predicate Clean(points: seq<TrajectoryPoint>, n: nat)
      requires n <= |points|
    {
      forall i :: 0 <= i < n ==> Check(points, i) == NoViolation
    }

    predicate Accepts(points: seq<TrajectoryPoint>) {
      points != [] && Clean(points, |points|)
    }
  }

  // ----- what the checks mean

  /** Coasting for the latency, braking at comfort deceleration and the buffer fit before the obstacle. */
  predicate Clears(obstacle: real, p: TrajectoryPoint, env: Envelope) {
    && 0.0 < env.comfortDecel
    && var v := Max(0.0, p.speed);
       v * Max(0.0, env.latency) + v * v / (2.0 * env.comfortDecel) + env.buffer <= obstacle - p.distance
  }

  /** Sample `i` breaks rule `v`. A limit that is not positive, or not configured, does not apply. */
  predicate Breaks(l: Limits, points: seq<TrajectoryPoint>, i: nat, v: Violation)
    requires i < |points|
  {
    match v
    case NonMonotonicTime => i > 0 && points[i].time <= points[i - 1].time
    case NonMonotonicDistance => i > 0 && points[i].distance + 0.000000000001 < points[i - 1].distance
    case SpeedOutOfBounds =>
      l.config.Some? && 0.0 < l.config.value.maxSpeed && l.config.value.maxSpeed + 0.000000000001 < Abs(points[i].speed)
    case AccelOutOfBounds =>
      l.config.Some? && 0.0 < l.config.value.maxAccel && l.config.value.maxAccel + 0.000000000001 < Abs(points[i].accel)
    case JerkOutOfBounds => l.maxJerk + 0.000000000001 < Abs(points[i].jerk)
    case EnvelopeViolation => l.config.Some? && 0.0 <= l.obstacle && !Clears(l.obstacle, points[i], l.config.value)
    case _ => false
  }

  lemma ClearsIffWithin(obstacle: real, p: TrajectoryPoint, env: Envelope)
    ensures Clears(obstacle, p, env) <==> Within(obstacle - p.distance, p.speed, env)
  {
  }

  /** The order in which broken rules are looked for. */
  function Rank(v: Violation): nat {
    match v
    case NonMonotonicTime => 1
    case NonMonotonicDistance => 2
    case SpeedOutOfBounds => 3
    case AccelOutOfBounds => 4
    case JerkOutOfBounds => 5
    case EnvelopeViolation => 6
    case _ => 0
  }

  lemma CheckBreaks(l: Limits, points: seq<TrajectoryPoint>, i: nat, w: Violation)
    requires i < |points|
    ensures var c := l.Check(points, i);
            && (c != NoViolation ==> Breaks(l, points, i, c))
            && (Breaks(l, points, i, w) ==> c != NoViolation && Rank(c) <= Rank(w))
  {
    if l.config.Some? {
      ClearsIffWithin(l.obstacle, points[i], l.config.value);
    }
  }

  /** A sample passes exactly when it breaks no rule; otherwise the violation named is the broken rule of least rank. */
  lemma CheckNamesFirstBroken(l: Limits, points: seq<TrajectoryPoint>, i: nat)
    requires i < |points|
    ensures var c := l.Check(points, i);
            && (c == NoViolation <==> forall v :: !Breaks(l, points, i, v))
            && (c != NoViolation ==> Breaks(l, points, i, c))
            && (forall v :: Breaks(l, points, i, v) ==> Rank(c) <= Rank(v))
  {
    var c := l.Check(points, i);
    forall v ensures Breaks(l, points, i, v) ==> c != NoViolation && Rank(c) <= Rank(v) {
      CheckBreaks(l, points, i, v);
    }
    CheckBreaks(l, points, i, NoViolation);
  }

  /** Sample `i` advances on the one before and stays within every limit that applies. */
  predicate InOrder(l: Limits, points: seq<TrajectoryPoint>, i: nat)
    requires i < |points|
  {
    var p := points[i];
    && (i > 0 ==> points[i - 1].time < p.time && points[i - 1].distance - p.distance <= 0.000000000001)
    && (l.config.Some? && 0.0 < l.config.value.maxSpeed ==> Abs(p.speed) <= l.config.value.maxSpeed + 0.000000000001)
    && (l.config.Some? && 0.0 < l.config.value.maxAccel ==> Abs(p.accel) <= l.config.value.maxAccel + 0.000000000001)
    && Abs(p.jerk) <= l.maxJerk + 0.000000000001
    && (l.config.Some? && 0.0 <= l.obstacle ==> Clears(l.obstacle, p, l.config.value))
  }

  /** An accepted trajectory is one that is not empty and whose samples are all in order. */
  lemma AcceptsMeaning(l: Limits, points: seq<TrajectoryPoint>)
    ensures l.Accepts(points) <==> points != [] && forall i :: 0 <= i < |points| ==> InOrder(l, points, i)
  {
    forall i | 0 <= i < |points| ensures l.Check(points, i) == NoViolation <==> InOrder(l, points, i) {
      if l.config.Some? {
        ClearsIffWithin(l.obstacle, points[i], l.config.value);
      }
    }
  }

  class TrajectoryValidator {
    var config: Option<Envelope>
    var maxJerk: real
    var obstacle: real

    ghost predicate Valid()
      reads this
    {
      0.0 <= maxJerk
    }

    function CurrentLimits(): Limits
      reads this
    {
      Limits(config, maxJerk, obstacle)
    }

    constructor ()
      ensures Valid() && CurrentLimits() == Limits(None, 5.0, -1.0)
    {
      config, maxJerk, obstacle := None, 5.0, -1.0;
    }

    method ApplyConfig(envelope: Envelope)
      modifies this`config
      ensures CurrentLimits() == old(CurrentLimits()).(config := Some(envelope))
    {
      config := Some(envelope);
    }

    method SetMaxJerk(limit: real)
      modifies this`maxJerk
      ensures Valid() && CurrentLimits() == old(CurrentLimits()).(maxJerk := Max(0.0, limit))
    {
      maxJerk := if limit < 0.0 then 0.0 else limit;
    }

    method SetObstacleDistance(distance: real)
      modifies this`obstacle
      ensures CurrentLimits() == old(CurrentLimits()).(obstacle := distance)
    {
      obstacle := distance;
    }

    /** Accepts exactly the clean trajectories; otherwise names the first bad sample and its first failed check. */
    method Validate(points: array?<TrajectoryPoint>, count: nat) returns (r: Verdict)
      requires points != null ==> count <= points.Length
      ensures points == null ==> r == Verdict(false, NullInput, 0)
      ensures points != null && count == 0 ==> r == Verdict(false, EmptyTrajectory, 0)
      ensures points != null ==> (r.ok <==> CurrentLimits().Accepts(points[..count]))
      ensures r.ok ==> r == Verdict(true, NoViolation, 0)
      ensures points != null && 0 < count && !r.ok ==>
                && r.failingIndex < count
                && CurrentLimits().Clean(points[..count], r.failingIndex)
                && r.violation == CurrentLimits().Check(points[..count], r.failingIndex) != NoViolation
    {
      if points == null {
        return Verdict(false, NullInput, 0);
      }
      if count == 0 {
        return Verdict(false, EmptyTrajectory, 0);
      }
      var maxSpeed := if config.Some? then Max(0.0, config.value.maxSpeed) else 0.0;
      var maxAccel := if config.Some? then Max(0.0, config.value.maxAccel) else 0.0;
      for i := 0 to count
        invariant CurrentLimits().Clean(points[..count], i)
      {
        var p := points[i];
        ghost var first := CurrentLimits().Check(points[..count], i);
        if i > 0 {
          var prev := points[i - 1];
          if p.time <= prev.time {
            return Verdict(false, NonMonotonicTime, i);
          }
          if p.distance + EPSILON < prev.distance {
            return Verdict(false, NonMonotonicDistance, i);
          }
        }
        if maxSpeed > 0.0 && Abs(p.speed) > maxSpeed + EPSILON {
          return Verdict(false, SpeedOutOfBounds, i);
        }
        if maxAccel > 0.0 && Abs(p.accel) > maxAccel + EPSILON {
          return Verdict(false, AccelOutOfBounds, i);
        }
        if Abs(p.jerk) > maxJerk + EPSILON {
          return Verdict(false, JerkOutOfBounds, i);
        }
        if config.Some? && obstacle >= 0.0 {
          var remaining := obstacle - p.distance;
          if !Evaluate(remaining, p.speed, config.value).withinEnvelope {
            return Verdict(false, EnvelopeViolation, i);
          }
        }
      }
      return Verdict(true, NoViolation, 0);
    }
  }
}
