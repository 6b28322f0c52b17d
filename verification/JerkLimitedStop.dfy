/** `generate_jerk_limited_stop_profile`: deceleration is ramped up and, near the end, eased off. */
module JerkLimitedStop {
  import opened Numeric
  import opened StopProfile

  datatype Motion = Motion(t: real, v: real, a: real, x: real)
  datatype Command = Command(a: real, jerk: real)

  const NEGLIGIBLE_DECEL := 0.000000001

  /** The acceleration applied over the coming period, from speed `v` and acceleration `a`. */
  function Steer(p: StopRequest, v: real, a: real): (c: Command)
    requires p.JerkLimited()
    ensures -p.decel <= a <= 0.0 ==> -p.decel <= c.a <= 0.0
  {
    var ramp := p.jerk * p.dt;
    assert 0.0 <= ramp by { ProductSign(p.jerk, p.dt); }
    if a > -p.decel then
      if a - ramp < -p.decel then Command(-p.decel, 0.0) else Command(a - ramp, -p.jerk)
    else
      var timeToStop := if Abs(a) > NEGLIGIBLE_DECEL then v / Abs(a) else 0.0;
      if timeToStop <= Abs(a) / p.jerk then
        if a + ramp > 0.0 then Command(0.0, 0.0) else Command(a + ramp, p.jerk)
      else
        Command(a, 0.0)
  }

  /** One period at acceleration `a`. */
  function Apply(p: StopRequest, m: Motion, a: real): Motion {
    var w := Max(0.0, m.v + a * p.dt);
    Motion(m.t + p.dt, w, a, m.x + Advance(m.v, w, p.dt))
  }

  function Next(p: StopRequest, m: Motion): Motion
    requires p.JerkLimited()
  {
    Apply(p, m, Steer(p, m.v, m.a).a)
  }

  /** The loop variables after `n` iterations. */
  function At(p: StopRequest, n: nat): (m: Motion)
    requires p.JerkLimited()
    ensures 0.0 <= m.v && -p.decel <= m.a <= 0.0
  {
    if n == 0 then Motion(0.0, p.Entry(), 0.0, 0.0) else Next(p, At(p, n - 1))
  }

  /** What the loop records when it starts an iteration from `m`. */
  function Record(p: StopRequest, m: Motion): TrajectoryPoint
    requires p.JerkLimited()
  {
    var c := Steer(p, m.v, m.a);
    TrajectoryPoint(m.t, m.v, c.a, c.jerk, m.x)
  }

  function Sample(p: StopRequest, n: nat): TrajectoryPoint
    requires p.JerkLimited()
  {
    Record(p, At(p, n))
  }

  // ----- the profile ends

  /** The least deceleration of a sample that is not an easing-off one. */
  function Firm(p: StopRequest): (d: real)
    requires p.JerkLimited()
    ensures 0.0 < d
  {
    assert 0.0 < p.jerk * p.dt;
    Min(p.decel, p.jerk * p.dt) * p.dt
  }

  /** Periods of at least firm braking needed to stop. */
  function FirmSteps(p: StopRequest): nat
    requires p.JerkLimited()
  {
    StepsToCover(p.Entry(), Firm(p))
  }

  /** Among the first `n` samples at least half brake firmly, and one more when the last is at full deceleration. */
  function FirmCount(n: nat, full: bool): nat {
    if full then n / 2 + 1 else (n + 1) / 2
  }

  predicate BrakesFirmly(p: StopRequest, a: real)
    requires p.JerkLimited()
  {
    a * p.dt <= -Firm(p)
  }

  predicate Full(p: StopRequest, a: real) {
    a <= -p.decel
  }

  /** One period takes off at least `Firm`, unless it eases off, which needs full deceleration before it. */
  lemma FirmUnlessEasing(p: StopRequest, v: real, a: real)
    requires p.JerkLimited() && -p.decel <= a <= 0.0
    ensures (Full(p, a) && !Full(p, Steer(p, v, a).a)) || BrakesFirmly(p, Steer(p, v, a).a)
  {
    var b := Steer(p, v, a).a;
    var least := Min(p.decel, p.jerk * p.dt);
    if b <= -least {
      ProductSign(-least - b, p.dt);
    } else {
      ProductSign(p.jerk, p.dt);
    }
  }

  predicate Paid(v: real, count: nat, firm: real, entry: real) {
    v + count as real * firm <= entry
  }

  /** After `n` samples firm braking accounts for the speed lost so far. */
  predicate Accounted(p: StopRequest, n: nat, m: Motion)
    requires p.JerkLimited()
  {
    Paid(m.v, FirmCount(n, Full(p, m.a)), Firm(p), p.Entry())
  }

  lemma AccountedNext(p: StopRequest, n: nat, m: Motion, a: real)
    requires p.JerkLimited() && Accounted(p, n, m) && 0.0 <= m.v && -p.decel <= a <= 0.0
    requires 0.0 < Apply(p, m, a).v
    requires (Full(p, m.a) && !Full(p, a)) || BrakesFirmly(p, a)
    ensures Accounted(p, n + 1, Apply(p, m, a))
  {
    var k := Apply(p, m, a);
    ProductSign(-a, p.dt);
    SpeedBudget(k.v, m.v, a * p.dt, Firm(p), Full(p, m.a) && !Full(p, a),
      FirmCount(n, Full(p, m.a)), FirmCount(n + 1, Full(p, a)), p.Entry());
  }

  lemma SpeedBudget(w: real, v: real, change: real, firm: real, easing: bool, c: nat, d: nat, entry: real)
    requires Paid(v, c, firm, entry) && 0.0 < firm
    requires w <= v && 0.0 < w == Max(0.0, v + change)
    requires if easing then d <= c else d <= c + 1 && change <= -firm
    ensures Paid(w, d, firm, entry)
  {
    if easing {
      ProductSign((c - d) as real, firm);
    } else {
      ProductSign((c + 1 - d) as real, firm);
    }
  }

  lemma {:induction false} FirmBraking(p: StopRequest, n: nat)
    requires p.JerkLimited() && 0.0 < At(p, n).v
    ensures Accounted(p, n, At(p, n))
  {
    if n > 0 {
      var m := At(p, n - 1);
      FirmBraking(p, n - 1) by { StaysStopped(p, m); }
      FirmUnlessEasing(p, m.v, m.a);
      AccountedNext(p, n - 1, m, Steer(p, m.v, m.a).a);
    }
  }

  /** Speed never rises, so a robot at rest stays at rest. */
  lemma StaysStopped(p: StopRequest, m: Motion)
    requires p.JerkLimited() && 0.0 <= m.v && -p.decel <= m.a <= 0.0
    ensures 0.0 <= Next(p, m).v <= m.v
  {
    ProductSign(-Steer(p, m.v, m.a).a, p.dt);
  }

  lemma StoppedInTime(p: StopRequest, n: nat)
    requires p.JerkLimited() && 0.0 < At(p, n).v
    ensures n + 1 < 2 * FirmSteps(p)
  {
    FirmBraking(p, n);
    CountLimit(p, n, At(p, n));
  }

  lemma CountLimit(p: StopRequest, n: nat, m: Motion)
    requires p.JerkLimited() && Accounted(p, n, m) && 0.0 < m.v
    ensures FirmCount(n, Full(p, m.a)) < FirmSteps(p)
  {
    StepsLeft(p.Entry(), Firm(p), FirmCount(n, Full(p, m.a)));
  }

  /** Iterations still to run once `n` are done. */
  function StepsFrom(p: StopRequest, n: nat): (steps: nat)
    requires p.JerkLimited()
    ensures 0.0 < At(p, n).v ==> n < steps
    decreases 2 * FirmSteps(p) - n
  {
    if At(p, n).v <= 0.0 then n else
      assert n + 1 < 2 * FirmSteps(p) by { StoppedInTime(p, n); }
      StepsFrom(p, n + 1)
  }

  /** Number of samples before the terminal one. */
  function Steps(p: StopRequest): nat
    requires p.JerkLimited()
  {
    StepsFrom(p, 0)
  }

  lemma {:induction false} MovingIffBeforeEndFrom(p: StopRequest, from: nat, n: nat)
    requires p.JerkLimited() && from <= n
    ensures 0.0 < At(p, n).v <==> n < StepsFrom(p, from)
    decreases 2 * FirmSteps(p) - from
  {
    if At(p, from).v <= 0.0 {
      SpeedFalls(p, from, n);
    } else if from < n {
      StoppedInTime(p, from);
      MovingIffBeforeEndFrom(p, from + 1, n);
    }
  }

  /** The loop of the generator runs exactly `Steps` times. */
  lemma MovingIffBeforeEnd(p: StopRequest, n: nat)
    requires p.JerkLimited()
    ensures 0.0 < At(p, n).v <==> n < Steps(p)
  {
    MovingIffBeforeEndFrom(p, 0, n);
  }

  lemma {:induction false} SpeedFalls(p: StopRequest, i: nat, j: nat)
    requires p.JerkLimited() && i <= j
    ensures At(p, j).v <= At(p, i).v
  {
    if i < j {
      SpeedFalls(p, i, j - 1);
      StaysStopped(p, At(p, j - 1));
    }
  }

  /** Fewer than two periods for each one that firm braking alone would take. */
  lemma StepBound(p: StopRequest)
    requires p.JerkLimited()
    ensures Steps(p) == 0 || Steps(p) < 2 * FirmSteps(p)
  {
    if Steps(p) != 0 {
      MovingIffBeforeEnd(p, Steps(p) - 1);
      StoppedInTime(p, Steps(p) - 1);
    }
  }

  // ----- the profile as a whole

  function Terminal(p: StopRequest): TrajectoryPoint
    requires p.JerkLimited()
  {
    var m := At(p, Steps(p));
    TrajectoryPoint(m.t, 0.0, 0.0, 0.0, m.x)
  }

  /** The whole profile; its last sample is at rest. */
  function Profile(p: StopRequest): seq<TrajectoryPoint>
    requires p.JerkLimited()
  {
    seq(Steps(p), i requires 0 <= i => Sample(p, i)) + [Terminal(p)]
  }

  /** Speeds fall to exactly zero, and no acceleration leaves [-decel, 0]. */
  lemma ProfileSpeeds(p: StopRequest, i: nat, j: nat)
    requires p.JerkLimited() && i <= j <= Steps(p)
    ensures 0.0 <= Profile(p)[j].speed <= Profile(p)[i].speed <= p.Entry()
    ensures Profile(p)[j].speed == 0.0 <==> j == Steps(p)
    ensures -p.decel <= Profile(p)[j].accel <= 0.0
  {
    MovingIffBeforeEnd(p, i);
    MovingIffBeforeEnd(p, j);
    SpeedFalls(p, i, j);
    SpeedFalls(p, 0, i);
  }

  lemma SteerSmooth(p: StopRequest, v: real, a: real)
    requires p.JerkLimited() && -p.decel <= a <= 0.0
    ensures Abs(Steer(p, v, a).a - a) <= p.jerk * p.dt
    ensures Abs(Steer(p, v, a).jerk) <= p.jerk
  {
    ProductSign(p.jerk, p.dt);
  }

  /** The jerk limit: up to the terminal sample, accelerations one period apart differ by at most `jerk * dt`. */
  lemma JerkLimitKept(p: StopRequest, i: nat)
    requires p.JerkLimited() && i < Steps(p)
    ensures var before := if i == 0 then 0.0 else Profile(p)[i - 1].accel;
            Abs(Profile(p)[i].accel - before) <= p.jerk * p.dt
    ensures Abs(Profile(p)[i].jerk) <= p.jerk
  {
    var m := At(p, i);
    SteerSmooth(p, m.v, m.a);
    if i > 0 {
      assert Profile(p)[i - 1].accel == m.a;
    }
  }

  // ----- the profile sample by sample

  /** The stop is near: at full deceleration it takes no longer than easing off would. */
  predicate EasesAt(p: StopRequest, speed: real) {
    p.decel <= 0.000000001 || speed * p.jerk <= p.decel * p.decel
  }

  /** Acceleration and jerk of a sample that follows acceleration `before`, at `speed`. */
  predicate Chosen(p: StopRequest, before: real, s: TrajectoryPoint) {
    if -p.decel < before then
      && s.accel == Max(-p.decel, before - p.jerk * p.dt)
      && s.jerk == if before - p.jerk * p.dt < -p.decel then 0.0 else -p.jerk
    else if EasesAt(p, s.speed) then
      && s.accel == Min(0.0, -p.decel + p.jerk * p.dt)
      && s.jerk == if 0.0 < -p.decel + p.jerk * p.dt then 0.0 else p.jerk
    else
      s.accel == -p.decel && s.jerk == 0.0
  }

  /** One period on from `s`, at the acceleration recorded in it. */
  predicate LeadsTo(p: StopRequest, s: TrajectoryPoint, time: real, speed: real, distance: real) {
    && time == s.time + p.dt
    && speed == Max(0.0, s.speed + s.accel * p.dt)
    && distance == s.distance + (s.speed + speed) * 0.5 * p.dt
  }

  /** The time to stop is within the time to ease off exactly when the speed is low enough. */
  lemma StopWithinEaseIff(v: real, decel: real, jerk: real)
    requires 0.0 < decel && 0.0 < jerk
    ensures v / decel <= decel / jerk <==> v * jerk <= decel * decel
  {
    var stop, ease := v / decel, decel / jerk;
    assert stop * decel == v && ease * jerk == decel;
    assert (ease - stop) * (decel * jerk) == decel * decel - v * jerk;
    assert 0.0 < decel * jerk;
    if stop <= ease {
      ProductSign(ease - stop, decel * jerk);
    }
    if v * jerk <= decel * decel {
      FactorSign(decel * jerk, ease - stop);
    }
  }

  lemma ChosenSample(p: StopRequest, m: Motion)
    requires p.JerkLimited() && -p.decel <= m.a <= 0.0
    ensures Chosen(p, m.a, Record(p, m))
  {
    if m.a == -p.decel {
      StopWithinEaseIff(m.v, p.decel, p.jerk);
    }
  }

  lemma RecordLeadsTo(p: StopRequest, m: Motion)
    requires p.JerkLimited()
    ensures var k := Next(p, m); LeadsTo(p, Record(p, m), k.t, k.v, k.x)
  {
  }

  lemma ProfileFields(p: StopRequest, i: nat)
    requires p.JerkLimited() && i <= Steps(p)
    ensures var m, s := At(p, i), Profile(p)[i]; s.time == m.t && s.speed == m.v && s.distance == m.x
    ensures i < Steps(p) ==> Profile(p)[i] == Record(p, At(p, i)) && Profile(p)[i].accel == At(p, i + 1).a
  {
    MovingIffBeforeEnd(p, i);
  }

  lemma ProfileStarts(p: StopRequest)
    requires p.JerkLimited()
    ensures var s := Profile(p)[0]; s.time == 0.0 && s.speed == Max(0.0, p.initialSpeed) && s.distance == 0.0
    ensures var s := Profile(p)[|Profile(p)| - 1]; s.speed == 0.0 && s.accel == 0.0 && s.jerk == 0.0
  {
    ProfileFields(p, 0);
  }

  /**
   * The profile, sample by sample: no acceleration is applied at first, deceleration is ramped up at the jerk limit,
   * held, and eased off at the jerk limit exactly once the time to stop is within the time to ease off.
   */
  lemma ProfileRecurrence(p: StopRequest, i: nat)
    requires p.JerkLimited() && i < Steps(p)
    ensures var s := Profile(p);
            && Chosen(p, if i == 0 then 0.0 else s[i - 1].accel, s[i])
            && LeadsTo(p, s[i], s[i + 1].time, s[i + 1].speed, s[i + 1].distance)
  {
    ProfileFields(p, i);
    ProfileFields(p, i + 1);
    if i > 0 {
      ProfileFields(p, i - 1);
    }
    ChosenSample(p, At(p, i));
    RecordLeadsTo(p, At(p, i));
    assert At(p, i + 1) == Next(p, At(p, i));
  }

  // ----- the generator

  /** The first half of the loop body: pick the acceleration for the coming period. */
  method Ramp(p: StopRequest, v: real, current: real) returns (a: real, jerk: real)
    requires p.JerkLimited()
    ensures Command(a, jerk) == Steer(p, v, current)
  {
    a := current;
    if a > -p.decel {
      jerk := -p.jerk;
      ProductNegated(jerk, p.jerk, p.dt);
      a := a + jerk * p.dt;
      if a < -p.decel {
        a := -p.decel;
        jerk := 0.0;
      }
    } else {
      var timeToStop := if Abs(a) > NEGLIGIBLE_DECEL then v / Abs(a) else 0.0;
      var timeToRamp := Abs(a) / p.jerk;
      if timeToStop <= timeToRamp {
        jerk := p.jerk;
        a := a + jerk * p.dt;
        if a > 0.0 {
          a := 0.0;
          jerk := 0.0;
        }
      } else {
        jerk := 0.0;
      }
    }
  }

  /** The loop body: the sample to record and the loop variables for the next iteration. */
  method Brake(p: StopRequest, m: Motion) returns (sample: TrajectoryPoint, next: Motion)
    requires p.JerkLimited()
    ensures sample == Record(p, m) && next == Next(p, m)
  {
    var a, jerk := Ramp(p, m.v, m.a);
    sample := TrajectoryPoint(m.t, m.v, a, jerk, m.x);
    next := Coast(p, m, a);
  }

  /** The second half of the loop body: one period at that acceleration. */
  method Coast(p: StopRequest, m: Motion, a: real) returns (next: Motion)
    ensures next == Apply(p, m, a)
  {
    var nextV := Max(0.0, m.v + a * p.dt);
    var stepD := ((m.v + nextV) * 0.5) * p.dt;
    next := Motion(m.t + p.dt, nextV, a, m.x + stepD);
  }

  /** Fills `out` with the profile; reports failure on bad arguments or when `capacity` is too small. */
  method Generate(p: StopRequest, out: array?<TrajectoryPoint>, capacity: nat)
    returns (ok: bool, count: nat)
    requires out != null ==> capacity <= out.Length
    modifies if out != null then {out} else {}
    ensures ok <==> out != null && capacity != 0 && p.JerkLimited() && Steps(p) < capacity
    ensures ok ==> count == Steps(p) + 1 && out[..count] == Profile(p)
    ensures !ok && out != null && p.JerkLimited() ==>
              count == capacity && out[..count] == seq(capacity, i requires 0 <= i => Sample(p, i))
    ensures out == null || !p.JerkLimited() ==> count == 0
    ensures out != null ==> out[count..] == old(out[..])[count..]
  {
    count := 0;
    if out == null || capacity == 0 || p.dt <= 0.0 || p.decel <= 0.0 || p.jerk <= 0.0 {
      return false, 0;
    }
    var m := Motion(0.0, Max(0.0, p.initialSpeed), 0.0, 0.0);
    while m.v > 0.0 && count < capacity
      invariant count <= capacity && count <= Steps(p)
      invariant m == At(p, count)
      invariant forall i :: 0 <= i < count ==> out[i] == Sample(p, i)
      invariant forall i :: count <= i < out.Length ==> out[i] == old(out[i])
      decreases capacity - count
    {
      MovingIffBeforeEnd(p, count);
      var sample, next := Brake(p, m);
      out[count] := sample;
      count := count + 1;
      m := next;
    }
    MovingIffBeforeEnd(p, count);
    if count >= capacity {
      return false, count;
    }
    assert count == Steps(p);
    out[count] := TrajectoryPoint(m.t, 0.0, 0.0, 0.0, m.x);
    count := count + 1;
    return true, count;
  }
}
