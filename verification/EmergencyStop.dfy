/** `generate_emergency_stop_profile`: full deceleration from the first sample on. */
module EmergencyStop {
  import opened Numeric
  import opened StopProfile

  datatype Motion = Motion(t: real, v: real, x: real)

  function Next(p: StopRequest, m: Motion): Motion
    requires p.Plain()
  {
    var w := Max(0.0, m.v - p.Drop());
    Motion(m.t + p.dt, w, m.x + Advance(m.v, w, p.dt))
  }

  /** The loop variables after `n` iterations. */
  function At(p: StopRequest, n: nat): Motion
    requires p.Plain()
  {
    if n == 0 then Motion(0.0, p.Entry(), 0.0) else Next(p, At(p, n - 1))
  }

  /** What the loop records when it starts an iteration from `m`. */
  function Record(p: StopRequest, m: Motion): TrajectoryPoint
    requires p.Plain()
  {
    TrajectoryPoint(m.t, m.v, (Next(p, m).v - m.v) / p.dt, 0.0, m.x)
  }

  function Sample(p: StopRequest, n: nat): TrajectoryPoint
    requires p.Plain()
  {
    Record(p, At(p, n))
  }

  /** Number of samples before the terminal one. */
  function Steps(p: StopRequest): nat
    requires p.Plain()
  {
    StepsToCover(p.Entry(), p.Drop())
  }

  /** The first samples, as the loop records them. */
  function Samples(p: StopRequest, n: nat): (s: seq<TrajectoryPoint>)
    requires p.Plain()
    ensures |s| == n
  {
    seq(n, i requires 0 <= i => Sample(p, i))
  }

  lemma SamplesGrow(p: StopRequest, n: nat)
    requires p.Plain()
    ensures Samples(p, n + 1) == Samples(p, n) + [Sample(p, n)]
  {
  }

  /** The whole profile; its last sample is at rest. */
  function Profile(p: StopRequest): seq<TrajectoryPoint>
    requires p.Plain()
  {
    Samples(p, Steps(p) + 1)
  }

  // ----- the loop variables in closed form

  lemma {:induction false} SpeedAndTime(p: StopRequest, n: nat)
    requires p.Plain()
    ensures At(p, n).v == Remaining(p.Entry(), p.Drop(), n)
    ensures At(p, n).t == n as real * p.dt
  {
    if n > 0 {
      SpeedAndTime(p, n - 1);
      RemainingNext(p.Entry(), p.Drop(), n - 1);
      assert n as real * p.dt == (n - 1) as real * p.dt + p.dt;
    }
  }

  /** The loop of the generator runs exactly `Steps` times. */
  lemma MovingIffBeforeEnd(p: StopRequest, n: nat)
    requires p.Plain()
    ensures 0.0 <= At(p, n).v <= p.Entry()
    ensures 0.0 < At(p, n).v <==> n < Steps(p)
  {
    SpeedAndTime(p, n);
    StepsLeft(p.Entry(), p.Drop(), n);
  }

  /** Before the last sample every period takes off the full `decel * dt`. */
  lemma FullStep(p: StopRequest, n: nat)
    requires p.Plain() && n + 1 < Steps(p)
    ensures At(p, n + 1).v == At(p, n).v - p.Drop()
  {
    MovingIffBeforeEnd(p, n + 1);
  }

  lemma LastStep(p: StopRequest)
    requires p.Plain() && 0 < Steps(p)
    ensures var w := At(p, Steps(p) - 1).v; 0.0 < w <= p.Drop()
    ensures At(p, Steps(p)).v == 0.0
  {
    MovingIffBeforeEnd(p, Steps(p) - 1);
    MovingIffBeforeEnd(p, Steps(p));
  }

  lemma TerminalSample(p: StopRequest)
    requires p.Plain()
    ensures var m := At(p, Steps(p)); Sample(p, Steps(p)) == TrajectoryPoint(m.t, 0.0, 0.0, 0.0, m.x)
  {
    MovingIffBeforeEnd(p, Steps(p));
  }

  // ----- distance

  /** Distance travelled and distance still in the speed, both times `2D`. */
  function Budget(decel: real, m: Motion): real {
    2.0 * decel * m.x + m.v * m.v
  }

  /** While the robot moves, travelled and kinetic distance add up: `2·D·x + v² = v0²`. */
  lemma {:induction false} EnergyBalance(p: StopRequest, n: nat)
    requires p.Plain() && n < Steps(p)
    ensures Budget(p.decel, At(p, n)) == p.Entry() * p.Entry()
  {
    if n > 0 {
      EnergyBalance(p, n - 1);
      FullStep(p, n - 1);
      BalanceStep(p.decel, p.dt, At(p, n - 1), At(p, n));
    }
  }

  lemma BalanceStep(decel: real, dt: real, m: Motion, k: Motion)
    requires k.v == m.v - decel * dt && k.x == m.x + Advance(m.v, k.v, dt)
    ensures Budget(decel, k) == Budget(decel, m)
  {
    var drop := decel * dt;
    calc {
      2.0 * decel * k.x;
      2.0 * decel * m.x + 2.0 * decel * (((m.v + k.v) * 0.5) * dt);
      2.0 * decel * m.x + (m.v + k.v) * drop;
      2.0 * decel * m.x + (m.v + k.v) * (m.v - k.v);
    }
  }

  /** The distance at rest. */
  function StopDistance(p: StopRequest): real
    requires p.Plain()
  {
    At(p, Steps(p)).x
  }

  /** Exact travel: the ideal `v0²/2D`, plus what the last period wastes by braking more gently from `w`. */
  lemma TravelExact(p: StopRequest)
    requires p.Plain() && 0 < Steps(p)
    ensures var w := At(p, Steps(p) - 1).v;
            2.0 * p.decel * StopDistance(p) == p.Entry() * p.Entry() + w * (p.Drop() - w)
  {
    var n := Steps(p) - 1;
    var m := At(p, n);
    EnergyBalance(p, n);
    LastStep(p);
    assert At(p, Steps(p)).x == m.x + Advance(m.v, 0.0, p.dt);
    assert 2.0 * p.decel * Advance(m.v, 0.0, p.dt) == m.v * p.Drop();
  }

  /** The ideal braking distance, and at most `D·dt²/8` more. */
  predicate TravelWithin(decel: real, dt: real, v: real, x: real)
    requires 0.0 < decel
  {
    v * v / (2.0 * decel) <= x <= v * v / (2.0 * decel) + decel * dt * dt / 8.0
  }

  /** A stop takes at least the ideal braking distance and wastes at most `D·dt²/8`. */
  lemma TravelBounds(p: StopRequest)
    requires p.Plain()
    ensures TravelWithin(p.decel, p.dt, p.Entry(), StopDistance(p))
  {
    if Steps(p) == 0 {
      AtRestFromTheStart(p);
      BoundsAtRest(p.decel, p.dt, p.Entry(), StopDistance(p));
    } else {
      var w := Waste(p);
      BoundsFromWaste(p.decel, p.dt, p.Entry(), StopDistance(p), w);
    }
  }

  lemma AtRestFromTheStart(p: StopRequest)
    requires p.Plain() && Steps(p) == 0
    ensures p.Entry() == 0.0 && StopDistance(p) == 0.0
  {
    MovingIffBeforeEnd(p, 0);
  }

  lemma Waste(p: StopRequest) returns (w: real)
    requires p.Plain() && 0 < Steps(p)
    ensures 0.0 < w <= p.decel * p.dt
    ensures 2.0 * p.decel * StopDistance(p) == p.Entry() * p.Entry() + w * (p.decel * p.dt - w)
  {
    w := At(p, Steps(p) - 1).v;
    TravelExact(p);
    LastStep(p);
  }

  lemma BoundsAtRest(decel: real, dt: real, v: real, x: real)
    requires 0.0 < decel && v == 0.0 && x == 0.0
    ensures TravelWithin(decel, dt, v, x)
  {
    SquareSign(dt);
    ProductSign(decel, dt * dt);
  }

  lemma BoundsFromWaste(decel: real, dt: real, v: real, x: real, w: real)
    requires 0.0 < decel && 0.0 < w <= decel * dt
    requires 2.0 * decel * x == v * v + w * (decel * dt - w)
    ensures TravelWithin(decel, dt, v, x)
  {
    var drop := decel * dt;
    ProductSign(w, drop - w);
    SquareSign(w - drop / 2.0);
    ScaleBounds(decel, v * v, x, w * (drop - w), drop * drop / 4.0);
    assert drop * drop / 4.0 == (2.0 * decel) * (decel * dt * dt / 8.0);
  }

  lemma ScaleBounds(decel: real, e: real, x: real, waste: real, most: real)
    requires 0.0 < decel && 2.0 * decel * x == e + waste && 0.0 <= waste <= most
    ensures e / (2.0 * decel) <= x <= e / (2.0 * decel) + most / (2.0 * decel)
  {
    var k := 2.0 * decel;
    assert x == (e + waste) / k;
    assert (e + waste) / k == e / k + waste / k;
    QuotientSign(waste, k);
    QuotientSign(most - waste, k);
    assert most / k == (most - waste) / k + waste / k;
  }

  // ----- the profile sample by sample

  lemma ProfileStarts(p: StopRequest)
    requires p.Plain()
    ensures var s := Profile(p)[0]; s.time == 0.0 && s.speed == Max(0.0, p.initialSpeed) && s.distance == 0.0
    ensures var s := Profile(p)[|Profile(p)| - 1]; s.speed == 0.0 && s.accel == 0.0 && s.jerk == 0.0
  {
    TerminalSample(p);
  }

  /**
   * The profile, sample by sample: each period takes off `decel * dt` or what is left, the acceleration recorded is
   * the one that does so, and no jerk is recorded.
   */
  lemma ProfileRecurrence(p: StopRequest, i: nat)
    requires p.Plain() && i < Steps(p)
    ensures var s := Profile(p);
            && s[i + 1].time == s[i].time + p.dt
            && s[i + 1].speed == Max(0.0, s[i].speed - p.decel * p.dt)
            && s[i].accel == (s[i + 1].speed - s[i].speed) / p.dt && s[i].jerk == 0.0
            && s[i + 1].distance == s[i].distance + (s[i].speed + s[i + 1].speed) * 0.5 * p.dt
  {
  }

  // ----- the generator

  /** The loop body: the sample to record and the loop variables for the next iteration. */
  method Brake(p: StopRequest, m: Motion) returns (sample: TrajectoryPoint, next: Motion)
    requires p.Plain()
    ensures sample == Record(p, m) && next == Next(p, m)
  {
    var nextV := Max(0.0, m.v - p.decel * p.dt);
    var accel := (nextV - m.v) / p.dt;
    var stepD := ((m.v + nextV) * 0.5) * p.dt;
    sample := TrajectoryPoint(m.t, m.v, accel, 0.0, m.x);
    next := Motion(m.t + p.dt, nextV, m.x + stepD);
  }

  lemma LoopGuard(p: StopRequest, n: nat, m: Motion)
    requires p.Plain() && m == At(p, n)
    ensures m.v > 0.0 <==> n < Steps(p)
    ensures n == Steps(p) ==> Sample(p, n) == TrajectoryPoint(m.t, 0.0, 0.0, 0.0, m.x)
  {
    MovingIffBeforeEnd(p, n);
    TerminalSample(p);
  }

  /** Fills `out` with the profile; reports failure on bad arguments or when `capacity` is too small. */
  method Generate(p: StopRequest, out: array?<TrajectoryPoint>, capacity: nat)
    returns (ok: bool, count: nat)
    requires out != null ==> capacity <= out.Length
    modifies if out != null then {out} else {}
    ensures ok <==> out != null && capacity != 0 && p.Plain() && Steps(p) < capacity
    ensures ok ==> count == Steps(p) + 1 && out[..count] == Profile(p)
    ensures !ok && out != null && p.Plain() ==>
              count == capacity && out[..count] == Samples(p, capacity)
    ensures out == null || !p.Plain() ==> count == 0
    ensures out != null ==> out[count..] == old(out[..])[count..]
  {
    count := 0;
    if out == null || capacity == 0 || p.dt <= 0.0 || p.decel <= 0.0 {
      return false, 0;
    }
    var m := Motion(0.0, Max(0.0, p.initialSpeed), 0.0);
    while m.v > 0.0 && count < capacity
      invariant count <= capacity && count <= Steps(p)
      invariant m == At(p, count)
      invariant out[..count] == Samples(p, count)
      invariant forall i :: count <= i < out.Length ==> out[i] == old(out[i])
      decreases capacity - count
    {
      LoopGuard(p, count, m);
      SamplesGrow(p, count);
      var sample, next := Brake(p, m);
      out[count] := sample;
      count := count + 1;
      m := next;
    }
    LoopGuard(p, count, m);
    if count >= capacity {
      return false, count;
    }
    SamplesGrow(p, count);
    out[count] := TrajectoryPoint(m.t, 0.0, 0.0, 0.0, m.x);
    count := count + 1;
    return true, count;
  }
}
