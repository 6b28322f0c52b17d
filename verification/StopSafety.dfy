/** How the two generators, the validator and the envelope fit together. */
module StopSafety {
  import opened Numeric
  import opened SafetyEnvelope
  import opened StopProfile
  import opened TrajectoryValidation
  import Plain = EmergencyStop
  import Smooth = JerkLimitedStop
  import Travel = SmoothTravel
  import Peak = ClaimPeak

  // ----- the validator accepts what the plain generator makes

  /** What a point at distance `x` and speed `v` claims in front of where braking began. */
  function Claim(x: real, v: real, env: Envelope): real
    requires 0.0 < env.comfortDecel
  {
    Peak.Reach(x, v, env.comfortDecel, Max(0.0, env.latency))
  }

  /** Braking from `v` to `w` at no less than comfort deceleration claims no new ground. */
  lemma ClaimShrinks(x: real, v: real, w: real, decel: real, dt: real, env: Envelope)
    requires 0.0 < env.comfortDecel <= decel && 0.0 < dt <= 2.0 * env.latency
    requires 0.0 <= v && w == Max(0.0, v - decel * dt)
    ensures Claim(x + Advance(v, w, dt), w, env) <= Claim(x, v, env)
  {
    var c, lost := env.comfortDecel, v - w;
    assert 0.0 <= lost by { ProductSign(decel, dt); }
    PaidByBraking(v, w, lost, c, decel, dt);
    LatencyCovers(c, lost, dt, env.latency);
    GroundFalls(Advance(v, w, dt), v, w, env.latency, c);
  }

  lemma GroundFalls(adv: real, v: real, w: real, latency: real, c: real)
    requires 0.0 < c && 2.0 * c * adv <= 2.0 * c * ((v - w) * latency) + (v * v - w * w)
    ensures adv + StoppingGround(w, latency, c) <= StoppingGround(v, latency, c)
  {
    DivideBound(2.0 * c, adv, (v - w) * latency, v * v, w * w);
  }

  /** Twice the period's distance, times `c`, is paid by the kinetic term and by half a period of latency. */
  lemma PaidByBraking(v: real, w: real, lost: real, c: real, decel: real, dt: real)
    requires 0.0 < c <= decel && 0.0 < dt && 0.0 <= v
    requires w == Max(0.0, v - decel * dt) && lost == v - w && 0.0 <= lost
    ensures 2.0 * c * Advance(v, w, dt) <= c * (dt * lost) + (v * v - w * w)
  {
    if w == 0.0 {
      SquareSign(v);
    } else {
      assert lost == decel * dt;
      ProductSign(decel - c, dt);
      ProductSign((decel - c) * dt, v + w);
      ProductSign(c, dt);
      ProductSign(c * dt, lost);
      assert (v + w) * lost - (v + w) * (c * dt) == ((decel - c) * dt) * (v + w);
      assert v * v - w * w == (v + w) * lost;
    }
  }

  lemma LatencyCovers(c: real, lost: real, dt: real, latency: real)
    requires 0.0 < c && 0.0 <= lost && dt <= 2.0 * latency
    ensures c * (dt * lost) <= 2.0 * c * (lost * latency)
  {
    ProductSign(lost, 2.0 * latency - dt);
    ProductSign(c, lost * (2.0 * latency - dt));
  }

  lemma DivideBound(k: real, a: real, b: real, e: real, f: real)
    requires 0.0 < k && k * a <= k * b + (e - f)
    ensures a + f / k <= b + e / k
  {
    QuotientMonotone(k * (a - b), e - f, k);
    assert (k * (a - b)) / k == a - b;
    assert (e - f) / k == e / k - f / k;
  }

  lemma ClaimNext(p: StopRequest, env: Envelope, m: Plain.Motion)
    requires p.Plain() && 0.0 < env.comfortDecel <= p.decel && p.dt <= 2.0 * env.latency && 0.0 <= m.v
    ensures var k := Plain.Next(p, m); Claim(k.x, k.v, env) <= Claim(m.x, m.v, env)
  {
    ClaimShrinks(m.x, m.v, Plain.Next(p, m).v, p.decel, p.dt, env);
  }

  lemma {:induction false} ClaimNeverGrows(p: StopRequest, env: Envelope, n: nat)
    requires p.Plain() && 0.0 < env.comfortDecel <= p.decel && p.dt <= 2.0 * env.latency
    ensures Claim(Plain.At(p, n).x, Plain.At(p, n).v, env) <= Claim(0.0, p.Entry(), env)
  {
    if n > 0 {
      ClaimNeverGrows(p, env, n - 1);
      Plain.MovingIffBeforeEnd(p, n - 1);
      ClaimNext(p, env, Plain.At(p, n - 1));
    }
  }

  /** Whatever the latency, a full period of braking at no less than comfort deceleration claims no new ground. */
  lemma FullPeriodShrinks(x: real, v: real, w: real, decel: real, dt: real, env: Envelope)
    requires 0.0 < env.comfortDecel <= decel && 0.0 < dt && 0.0 <= w == v - decel * dt
    ensures Claim(x + Advance(v, w, dt), w, env) <= Claim(x, v, env)
  {
    var latency := Max(0.0, env.latency);
    ProductSign(decel, dt);
    Peak.SharpNeverRises(v, w, decel, env.comfortDecel, latency);
    Peak.SlopeSign(x, x + Advance(v, w, dt), v, w, decel, env.comfortDecel, dt, latency);
  }

  /** Being within the envelope of an obstacle means that the claim, with the buffer, ends before it. */
  lemma WithinIffClaimFits(obstacle: real, x: real, v: real, env: Envelope)
    requires 0.0 < env.comfortDecel && 0.0 <= v
    ensures Within(obstacle - x, v, env) <==> Claim(x, v, env) + env.buffer <= obstacle
  {
  }

  /** No period changes the speed more sharply than the first one. */
  lemma FirstIsSharpest(p: StopRequest, n: nat)
    requires p.Plain()
    ensures Abs(Plain.Sample(p, n).accel) <= Abs(Plain.Sample(p, 0).accel)
  {
    Plain.MovingIffBeforeEnd(p, n);
    var drop, v, w := p.Drop(), p.Entry(), Plain.At(p, n).v;
    SharperFromFaster(v, w, Max(0.0, v - drop), Max(0.0, w - drop), p.dt);
  }

  lemma SharperFromFaster(v: real, w: real, v': real, w': real, dt: real)
    requires 0.0 < dt && v' <= v && w' <= w && w - w' <= v - v'
    ensures Abs((w' - w) / dt) <= Abs((v' - v) / dt)
  {
    QuotientSign(w - w', dt);
    QuotientMonotone(w - w', v - v', dt);
    assert (w' - w) / dt == -((w - w') / dt) && (v' - v) / dt == -((v - v') / dt);
  }

  /** When the validator looks at an obstacle, it plans with braking no sharper than the profile's. */
  predicate Comparable(l: Limits, p: StopRequest) {
    l.ChecksEnvelope() ==> l.config.value.comfortDecel <= p.decel
  }

  /** The claim of the sample at which it is greatest ends a buffer short of an obstacle that is looked at. */
  predicate PeakFits(l: Limits, p: StopRequest)
    requires p.Plain()
  {
    l.ChecksEnvelope() ==>
      var env := l.config.value;
      var latency := Max(0.0, env.latency);
      && 0.0 < env.comfortDecel
      && Peak.PlainReach(p, env.comfortDecel, latency, Peak.PlainPeak(p, env.comfortDecel, latency)) + env.buffer
           <= l.obstacle
  }

  /** A first sample that passes leaves room for its claim. */
  lemma FirstClaimFits(l: Limits, p: StopRequest)
    requires p.Plain() && l.ChecksEnvelope() && l.CheckAlone(Plain.Sample(p, 0)) == NoViolation
    ensures 0.0 < l.config.value.comfortDecel
    ensures Claim(0.0, p.Entry(), l.config.value) + l.config.value.buffer <= l.obstacle
  {
    var env := l.config.value;
    WithinMeansBuffered(l.obstacle - 0.0, p.Entry(), env);
    WithinIffClaimFits(l.obstacle, 0.0, p.Entry(), env);
  }

  /** Whatever the latency, the claim does not grow before the terminal sample if braking is as sharp as planned. */
  lemma ClaimFallsBeforeStop(p: StopRequest, env: Envelope, n: nat)
    requires p.Plain() && 0.0 < env.comfortDecel <= p.decel && n < Plain.Steps(p)
    ensures Claim(Plain.At(p, n).x, Plain.At(p, n).v, env) <= Claim(0.0, p.Entry(), env)
  {
    Peak.GentlePlanPeaksFirst(p, env.comfortDecel, Max(0.0, env.latency));
    Peak.PlainPeakIsHighest(p, env.comfortDecel, Max(0.0, env.latency), 0, n);
  }

  lemma MovingSampleFine(l: Limits, p: StopRequest, n: nat)
    requires p.Plain() && PeakFits(l, p) && n < Plain.Steps(p)
    requires l.CheckAlone(Plain.Sample(p, 0)) == NoViolation
    ensures l.CheckAlone(Plain.Sample(p, n)) == NoViolation
  {
    Plain.MovingIffBeforeEnd(p, n);
    FirstIsSharpest(p, n);
    if l.ChecksEnvelope() {
      var env, m := l.config.value, Plain.At(p, n);
      Peak.PlainPeakIsHighest(p, env.comfortDecel, Max(0.0, env.latency), 0, n);
      WithinIffClaimFits(l.obstacle, m.x, m.v, env);
    }
  }

  /** The robot comes to rest with the buffer between it and the obstacle, if one is set. */
  predicate StopFits(l: Limits, p: StopRequest)
    requires p.Plain()
  {
    l.ChecksEnvelope() ==> Plain.StopDistance(p) + l.config.value.buffer <= l.obstacle
  }

  /** After a first sample that passes, the terminal one passes exactly when the stop fits. */
  lemma TerminalFineIff(l: Limits, p: StopRequest)
    requires p.Plain() && l.CheckAlone(Plain.Sample(p, 0)) == NoViolation
    ensures l.CheckAlone(Plain.Sample(p, Plain.Steps(p))) == NoViolation <==> StopFits(l, p)
  {
    Plain.TerminalSample(p);
    Plain.MovingIffBeforeEnd(p, 0);
    if l.ChecksEnvelope() {
      FirstClaimFits(l, p);
      WithinIffClaimFits(l.obstacle, Plain.StopDistance(p), 0.0, l.config.value);
    }
  }

  lemma PlainSamplesAdvance(p: StopRequest, n: nat)
    requires p.Plain() && 0 < n
    ensures Plain.Sample(p, n - 1).time < Plain.Sample(p, n).time
    ensures Plain.Sample(p, n - 1).distance <= Plain.Sample(p, n).distance
  {
    Plain.MovingIffBeforeEnd(p, n - 1);
    Plain.MovingIffBeforeEnd(p, n);
    AdvanceOrder(0.0, 0.0, Plain.At(p, n - 1).v, Plain.At(p, n).v, p.dt);
  }

  /** Acceptance needs both ends of the profile to pass. */
  lemma EndsMustPass(l: Limits, p: StopRequest)
    requires p.Plain() && l.Accepts(Plain.Profile(p))
    ensures l.CheckAlone(Plain.Sample(p, 0)) == NoViolation && StopFits(l, p)
  {
    var points, last := Plain.Profile(p), Plain.Steps(p);
    assert l.Check(points, 0) == NoViolation && l.Check(points, last) == NoViolation;
    TerminalFineIff(l, p);
  }

  lemma PeakMustFit(l: Limits, p: StopRequest)
    requires p.Plain() && l.Accepts(Plain.Profile(p))
    ensures PeakFits(l, p)
  {
    if l.ChecksEnvelope() {
      var env := l.config.value;
      EndsMustPass(l, p);
      FirstClaimFits(l, p);
      var n := Peak.PlainPeak(p, env.comfortDecel, Max(0.0, env.latency));
      var m := Plain.At(p, n);
      assert l.Check(Plain.Profile(p), n) == NoViolation;
      Plain.MovingIffBeforeEnd(p, n);
      WithinIffClaimFits(l.obstacle, m.x, m.v, env);
    }
  }

  /**
   * Three samples decide, whatever the latency and the planned braking: a plain profile is valid throughout if and
   * only if its first sample is, the sample that claims most ground fits, and the stop ends a buffer short of the
   * obstacle.
   */
  lemma PlainProfileAcceptedIff(l: Limits, p: StopRequest)
    requires p.Plain()
    ensures l.Accepts(Plain.Profile(p)) <==>
              l.CheckAlone(Plain.Sample(p, 0)) == NoViolation && PeakFits(l, p) && StopFits(l, p)
  {
    var points := Plain.Profile(p);
    if l.Accepts(points) {
      EndsMustPass(l, p);
      PeakMustFit(l, p);
    }
    if l.CheckAlone(Plain.Sample(p, 0)) == NoViolation && PeakFits(l, p) && StopFits(l, p) {
      TerminalFineIff(l, p);
      forall i | 0 <= i < |points| ensures l.Check(points, i) == NoViolation {
        if i < Plain.Steps(p) {
          MovingSampleFine(l, p, i);
        }
        if i > 0 {
          PlainSamplesAdvance(p, i);
        }
      }
    }
  }

  /** With planned braking no sharper than the profile's its two ends decide. */
  lemma EndsDecide(l: Limits, p: StopRequest)
    requires p.Plain() && Comparable(l, p)
    ensures l.Accepts(Plain.Profile(p)) <==> l.CheckAlone(Plain.Sample(p, 0)) == NoViolation && StopFits(l, p)
  {
    PlainProfileAcceptedIff(l, p);
    if l.ChecksEnvelope() && l.CheckAlone(Plain.Sample(p, 0)) == NoViolation {
      FirstClaimFits(l, p);
      Peak.GentlePlanPeaksFirst(p, l.config.value.comfortDecel, Max(0.0, l.config.value.latency));
    }
  }

  /** With at least half a period of latency the first sample alone decides. */
  lemma PlainProfileAccepted(l: Limits, p: StopRequest)
    requires p.Plain() && Comparable(l, p)
    requires l.ChecksEnvelope() ==> p.dt <= 2.0 * l.config.value.latency
    ensures l.Accepts(Plain.Profile(p)) <==> l.CheckAlone(Plain.Sample(p, 0)) == NoViolation
  {
    EndsDecide(l, p);
    if l.ChecksEnvelope() && l.CheckAlone(Plain.Sample(p, 0)) == NoViolation {
      var env, n := l.config.value, Plain.Steps(p);
      FirstClaimFits(l, p);
      ClaimNeverGrows(p, env, n);
      Plain.MovingIffBeforeEnd(p, n);
      assert Claim(Plain.StopDistance(p), 0.0, env) == Plain.StopDistance(p);
    }
  }

  /**
   * The half period of latency is needed. With less of it, a slow robot that stops within one period
   * brakes too gently: planned right at the edge of the envelope, it comes to rest past that edge.
   */
  lemma LatencyIsNeeded(l: Limits, p: StopRequest, env: Envelope)
    requires p.Plain() && l.ChecksEnvelope() && env == l.config.value && 0.0 < env.comfortDecel
    requires 0.0 < p.Entry() <= p.Drop()
    requires p.Entry() < env.comfortDecel * (p.dt - 2.0 * Max(0.0, env.latency))
    requires l.obstacle == Claim(0.0, p.Entry(), env) + env.buffer
    ensures Within(l.obstacle, p.Entry(), env) && !l.Accepts(Plain.Profile(p))
  {
    var v := p.Entry();
    WithinIffClaimFits(l.obstacle, 0.0, v, env);
    StopsInOnePeriod(p);
    Overruns(v, env.comfortDecel, p.dt, Max(0.0, env.latency));
    assert !StopFits(l, p);
    if l.Accepts(Plain.Profile(p)) {
      EndsMustPass(l, p);
    }
  }

  lemma StopsInOnePeriod(p: StopRequest)
    requires p.Plain() && 0.0 < p.Entry() <= p.Drop()
    ensures Plain.Steps(p) == 1 && Plain.StopDistance(p) == Advance(p.Entry(), 0.0, p.dt)
  {
    Plain.MovingIffBeforeEnd(p, 0);
    Plain.MovingIffBeforeEnd(p, 1);
    assert Plain.At(p, 1) == Plain.Next(p, Plain.At(p, 0));
  }

  lemma Overruns(v: real, c: real, dt: real, latency: real)
    requires 0.0 < c && 0.0 < v < c * (dt - 2.0 * latency)
    ensures StoppingGround(v, latency, c) < Advance(v, 0.0, dt)
  {
    var k := 2.0 * c;
    assert (v * v) / k < (v * (c * (dt - 2.0 * latency))) / k by {
      ProductSign(v, c * (dt - 2.0 * latency) - v);
      QuotientOrder(v * (c * (dt - 2.0 * latency)), k, (v * v) / k);
    }
    assert v * (c * (dt - 2.0 * latency)) == k * (v * (dt - 2.0 * latency) / 2.0);
  }

  // ----- the validator accepts what the jerk-limited generator makes

  lemma SmoothSamplesAdvance(p: StopRequest, n: nat)
    requires p.JerkLimited() && 0 < n
    ensures Smooth.At(p, n - 1).t < Smooth.At(p, n).t
    ensures Smooth.At(p, n - 1).x <= Smooth.At(p, n).x
  {
    AdvanceOrder(0.0, 0.0, Smooth.At(p, n - 1).v, Smooth.At(p, n).v, p.dt);
  }

  /** The request stays inside the limits that do not involve an obstacle. */
  predicate Allowed(l: Limits, p: StopRequest) {
    && (l.MaxSpeed() <= 0.0 || p.Entry() <= l.MaxSpeed() + EPSILON)
    && (l.MaxAccel() <= 0.0 || p.decel <= l.MaxAccel() + EPSILON)
    && p.jerk <= l.maxJerk + EPSILON
  }

  /** An obstacle that is looked at leaves room for the ramp, beyond the latency and braking the envelope plans with. */
  predicate RoomForRamp(l: Limits, p: StopRequest)
    requires p.JerkLimited()
  {
    l.ChecksEnvelope() ==>
      var env := l.config.value;
      && 0.0 < env.comfortDecel <= Travel.MeanDecel(p)
      && p.dt <= 2.0 * env.latency
      && StoppingGround(p.Entry(), Travel.StartDelay(p) + env.latency, env.comfortDecel) + env.buffer <= l.obstacle
  }

  lemma SmoothSampleWithin(l: Limits, p: StopRequest, i: nat)
    requires p.JerkLimited() && l.ChecksEnvelope() && RoomForRamp(l, p)
    ensures Within(l.obstacle - Smooth.At(p, i).x, Smooth.At(p, i).v, l.config.value)
  {
    var m, env := Smooth.At(p, i), l.config.value;
    Travel.SmoothClaimFits(p, env.comfortDecel, env.latency, i);
    WithinIffClaimFits(l.obstacle, m.x, m.v, env);
  }

  lemma SmoothSampleFine(l: Limits, p: StopRequest, i: nat)
    requires p.JerkLimited() && RoomForRamp(l, p) && Allowed(l, p) && i <= Smooth.Steps(p)
    ensures l.CheckAlone(Smooth.Profile(p)[i]) == NoViolation
  {
    Smooth.ProfileSpeeds(p, 0, i);
    if i < Smooth.Steps(p) {
      Smooth.JerkLimitKept(p, i);
    } else {
      Smooth.MovingIffBeforeEnd(p, i);
    }
    if l.ChecksEnvelope() {
      SmoothSampleWithin(l, p, i);
    }
  }

  /**
   * A request inside the validator's limits yields a valid jerk-limited profile, when no obstacle is set or the one
   * that is leaves room for the ramp.
   */
  lemma SmoothProfileAccepted(l: Limits, p: StopRequest)
    requires p.JerkLimited() && RoomForRamp(l, p) && Allowed(l, p)
    ensures l.Accepts(Smooth.Profile(p))
  {
    var points := Smooth.Profile(p);
    forall i | 0 <= i < |points| ensures l.Check(points, i) == NoViolation {
      SmoothSampleFine(l, p, i);
      if i > 0 {
        SmoothNeighbours(p, i);
      }
    }
  }

  /** Acceptance needs the first sample to pass and the stop to end a buffer short of an obstacle that is set. */
  lemma SmoothEndsMustPass(l: Limits, p: StopRequest)
    requires p.JerkLimited() && l.Accepts(Smooth.Profile(p))
    ensures l.CheckAlone(Smooth.Profile(p)[0]) == NoViolation
    ensures l.ChecksEnvelope() ==> Smooth.Terminal(p).distance + l.config.value.buffer <= l.obstacle
  {
    var points, last := Smooth.Profile(p), Smooth.Steps(p);
    assert l.Check(points, 0) == NoViolation && l.Check(points, last) == NoViolation;
    assert points[last] == Smooth.Terminal(p);
    if l.ChecksEnvelope() {
      var env, x := l.config.value, Smooth.Terminal(p).distance;
      WithinMeansBuffered(l.obstacle - x, 0.0, env);
    }
  }

  /** An obstacle adds one check to each sample. */
  lemma CheckSplits(l: Limits, points: seq<TrajectoryPoint>, i: nat)
    requires i < |points| && l.ChecksEnvelope()
    ensures l.Check(points, i) == NoViolation <==>
              && l.WithoutObstacle().Check(points, i) == NoViolation
              && Within(l.obstacle - points[i].distance, points[i].speed, l.config.value)
  {
  }

  /** The jerk-limited stop leaves room: where the claim is greatest, and at rest. */
  predicate SmoothStopFits(l: Limits, p: StopRequest)
    requires p.JerkLimited() && l.config.Some?
  {
    var env := l.config.value;
    var c, latency := env.comfortDecel, Max(0.0, env.latency);
    && 0.0 < c
    && Peak.SmoothReach(p, c, latency, Peak.SmoothPeak(p, c, latency)) + env.buffer <= l.obstacle
    && Smooth.Terminal(p).distance + env.buffer <= l.obstacle
  }

  lemma SmoothWithinIff(l: Limits, p: StopRequest, i: nat)
    requires p.JerkLimited() && l.config.Some? && 0.0 < l.config.value.comfortDecel && i <= Smooth.Steps(p)
    ensures var env, point := l.config.value, Smooth.Profile(p)[i];
            Within(l.obstacle - point.distance, point.speed, env) <==>
              Peak.SmoothReach(p, env.comfortDecel, Max(0.0, env.latency), i) + env.buffer <= l.obstacle
  {
    var m := Smooth.At(p, i);
    Smooth.MovingIffBeforeEnd(p, i);
    WithinIffClaimFits(l.obstacle, m.x, m.v, l.config.value);
  }

  lemma SmoothRestReach(p: StopRequest, c: real, latency: real)
    requires p.JerkLimited() && 0.0 < c
    ensures Peak.SmoothReach(p, c, latency, Smooth.Steps(p)) == Smooth.Terminal(p).distance
  {
    Smooth.MovingIffBeforeEnd(p, Smooth.Steps(p));
    Travel.AtRest(latency, c);
  }

  /**
   * With planned braking up to the mean deceleration two more samples decide what an obstacle adds: the jerk-limited
   * profile is accepted if and only if it is without the obstacle, the sample that claims most ground fits, and the
   * stop ends a buffer short of the obstacle.
   */
  lemma SmoothObstacleIff(l: Limits, p: StopRequest)
    requires p.JerkLimited() && l.ChecksEnvelope() && l.config.value.comfortDecel <= Travel.MeanDecel(p)
    ensures l.Accepts(Smooth.Profile(p)) <==>
              l.WithoutObstacle().Accepts(Smooth.Profile(p)) && SmoothStopFits(l, p)
  {
    var points, n := Smooth.Profile(p), Smooth.Steps(p);
    if l.Accepts(points) {
      SmoothStopMustFit(l, p);
      forall i | 0 <= i < |points| ensures l.WithoutObstacle().Check(points, i) == NoViolation {
        CheckSplits(l, points, i);
      }
    }
    if l.WithoutObstacle().Accepts(points) && SmoothStopFits(l, p) {
      forall i | 0 <= i < |points| ensures l.Check(points, i) == NoViolation {
        SmoothFits(l, p, i);
        SmoothWithinIff(l, p, i);
        CheckSplits(l, points, i);
      }
    }
  }

  lemma SmoothStopMustFit(l: Limits, p: StopRequest)
    requires p.JerkLimited() && l.ChecksEnvelope() && l.Accepts(Smooth.Profile(p))
    ensures SmoothStopFits(l, p)
  {
    var env := l.config.value;
    var c, latency := env.comfortDecel, Max(0.0, env.latency);
    var points, peak := Smooth.Profile(p), Peak.SmoothPeak(p, c, latency);
    SmoothEndsMustPass(l, p);
    CheckSplits(l, points, 0);
    WithinMeansBuffered(l.obstacle - points[0].distance, points[0].speed, env);
    assert l.Check(points, peak) == NoViolation;
    CheckSplits(l, points, peak);
    SmoothWithinIff(l, p, peak);
  }

  lemma SmoothFits(l: Limits, p: StopRequest, i: nat)
    requires p.JerkLimited() && l.config.Some? && l.config.value.comfortDecel <= Travel.MeanDecel(p)
    requires SmoothStopFits(l, p) && i <= Smooth.Steps(p)
    ensures var env := l.config.value;
            Peak.SmoothReach(p, env.comfortDecel, Max(0.0, env.latency), i) + env.buffer <= l.obstacle
  {
    var env := l.config.value;
    if i < Smooth.Steps(p) {
      Peak.SmoothPeakIsHighest(p, env.comfortDecel, Max(0.0, env.latency), 0, i);
    } else {
      SmoothRestReach(p, env.comfortDecel, Max(0.0, env.latency));
    }
  }

  lemma SmoothNeighbours(p: StopRequest, i: nat)
    requires p.JerkLimited() && 0 < i <= Smooth.Steps(p)
    ensures Smooth.Profile(p)[i - 1].time < Smooth.Profile(p)[i].time
    ensures Smooth.Profile(p)[i - 1].distance <= Smooth.Profile(p)[i].distance
  {
    SmoothSamplesAdvance(p, i);
  }

  // ----- one generator against the other

  lemma SmoothKeepsMore(p: StopRequest, m: Plain.Motion, k: Smooth.Motion, a: real)
    requires p.JerkLimited() && m.v <= k.v && -p.decel <= a
    ensures Plain.Next(p, m).v <= Smooth.Apply(p, k, a).v
  {
    ProductSign(a + p.decel, p.dt);
  }

  /** At every instant the jerk-limited robot is at least as fast and at least as far as the plain one. */
  lemma {:induction false} SmoothDominates(p: StopRequest, n: nat)
    requires p.JerkLimited()
    ensures Plain.At(p, n).t == Smooth.At(p, n).t
    ensures Plain.At(p, n).v <= Smooth.At(p, n).v
    ensures Plain.At(p, n).x <= Smooth.At(p, n).x
  {
    if n > 0 {
      SmoothDominates(p, n - 1);
      var m, k := Plain.At(p, n - 1), Smooth.At(p, n - 1);
      SmoothKeepsMore(p, m, k, Smooth.At(p, n).a);
      AdvanceOrder(m.v, Plain.At(p, n).v, k.v, Smooth.At(p, n).v, p.dt);
    }
  }

  lemma {:induction false} SmoothDistanceGrows(p: StopRequest, i: nat, j: nat)
    requires p.JerkLimited() && i <= j
    ensures Smooth.At(p, i).x <= Smooth.At(p, j).x
  {
    if i < j {
      SmoothDistanceGrows(p, i, j - 1);
      SmoothSamplesAdvance(p, j);
    }
  }

  /** Limiting jerk never shortens a stop, in samples or in distance. */
  lemma SmoothTakesLonger(p: StopRequest)
    requires p.JerkLimited()
    ensures |Plain.Profile(p)| <= |Smooth.Profile(p)|
    ensures Plain.StopDistance(p) <= Smooth.Terminal(p).distance
  {
    var n := Smooth.Steps(p);
    SmoothDominates(p, n);
    Smooth.MovingIffBeforeEnd(p, n);
    Plain.MovingIffBeforeEnd(p, n);
    SmoothDominates(p, Plain.Steps(p));
    SmoothDistanceGrows(p, Plain.Steps(p), n);
  }

  // ----- stopping short of the obstacle

  /** From a Clear or Warning zone, coasting out the latency and then braking keeps the buffer, but for `D·dt²/8`. */
  lemma BufferKept(p: StopRequest, env: Envelope, distance: real)
    requires p.Plain() && env.comfortDecel <= p.decel
    requires var zone := Evaluate(distance, p.initialSpeed, env).zone; zone == Clear || zone == Warning
    ensures env.buffer - p.decel * p.dt * p.dt / 8.0
              <= distance - (p.Entry() * Max(0.0, env.latency) + Plain.StopDistance(p))
  {
    ZonesSplitTheEnvelope(distance, p.initialSpeed, env);
    Plain.TravelBounds(p);
    RoomLeft(p.initialSpeed, p.Entry(), p.decel, p.dt, Plain.StopDistance(p), env, distance);
  }

  lemma RoomLeft(speed: real, v: real, decel: real, dt: real, x: real, env: Envelope, distance: real)
    requires v == Max(0.0, speed) && 0.0 < decel && env.comfortDecel <= decel
    requires Within(distance, speed, env) && Plain.TravelWithin(decel, dt, v, x)
    ensures env.buffer - decel * dt * dt / 8.0 <= distance - (v * Max(0.0, env.latency) + x)
  {
    assert 0.0 < env.comfortDecel;
    var ideal := v * v / (2.0 * decel);
    assert distance >= v * Max(0.0, env.latency) + v * v / (2.0 * env.comfortDecel) + env.buffer;
    assert ideal <= v * v / (2.0 * env.comfortDecel) by { BrakingOrder(v, env.comfortDecel, decel); }
  }

  lemma BrakingOrder(v: real, gentle: real, sharp: real)
    requires 0.0 < gentle <= sharp
    ensures v * v / (2.0 * sharp) <= v * v / (2.0 * gentle)
  {
    var e := v * v;
    SquareSign(v);
    QuotientSign(e, 2.0 * sharp);
    var q := e / (2.0 * sharp);
    ProductSign(q, 2.0 * (sharp - gentle));
    assert q * (2.0 * gentle) <= e;
    QuotientMonotone(q * (2.0 * gentle), e, 2.0 * gentle);
  }

  function Coast(v: real, time: real): real {
    v * time
  }

  /**
   * From a Clear or Warning zone a jerk-limited stop keeps the buffer too, but for what the ramp and half a period
   * cover at the initial speed, if comfort deceleration is at most its mean deceleration.
   */
  lemma SmoothBufferKept(p: StopRequest, env: Envelope, distance: real)
    requires p.JerkLimited() && env.comfortDecel <= Travel.MeanDecel(p)
    requires var zone := Evaluate(distance, p.initialSpeed, env).zone; zone == Clear || zone == Warning
    ensures env.buffer - Coast(p.Entry(), Travel.StartDelay(p) + p.dt / 2.0)
              <= distance - (Coast(p.Entry(), Max(0.0, env.latency)) + Smooth.Terminal(p).distance)
  {
    ZonesSplitTheEnvelope(distance, p.initialSpeed, env);
    WithinMeansBuffered(distance, p.initialSpeed, env);
    Travel.SmoothTravelBound(p);
    SmoothRoomLeft(p.Entry(), Travel.StartDelay(p) + p.dt / 2.0, Max(0.0, env.latency), env.comfortDecel,
      Travel.MeanDecel(p), Smooth.Terminal(p).distance, distance - env.buffer);
  }

  lemma SmoothRoomLeft(v: real, delay: real, latency: real, gentle: real, sharp: real, x: real, room: real)
    requires 0.0 < gentle <= sharp
    requires StoppingGround(v, latency, gentle) <= room && x <= StoppingGround(v, delay, sharp)
    ensures Coast(v, latency) + x - Coast(v, delay) <= room
  {
    BrakingOrder(v, gentle, sharp);
  }
}
