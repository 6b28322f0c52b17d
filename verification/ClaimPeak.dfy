/**
 * Where along a stop the ground claimed is greatest: what has been covered, plus what the envelope would still plan
 * with for coasting and braking. The claim first rises and then falls.
 */
module ClaimPeak {
  import opened Numeric
  import opened SafetyEnvelope
  import opened StopProfile
  import Plain = EmergencyStop
  import Smooth = JerkLimitedStop
  import Travel = SmoothTravel

  // ----- one full period

  /**
   * The sign of what a period at deceleration `b`, from `v` to `w`, adds to the claim when braking at `c` after
   * `latency` is planned with.
   */
  function Slope(v: real, w: real, b: real, c: real, latency: real): real {
    (v + w) * (c - b) - 2.0 * (c * (b * latency))
  }

  /** The period takes its whole deceleration off the speed: it does not end at rest before its time. */
  predicate Slows(v: real, w: real, b: real, dt: real) {
    w == v - b * dt
  }

  lemma SlopeTimes(v: real, w: real, b: real, c: real, dt: real, latency: real)
    requires 0.0 < c && Slows(v, w, b, dt)
    ensures 2.0 * c * Advance(v, w, dt) + Travel.TwiceGround(c, w, latency) - Travel.TwiceGround(c, v, latency)
         == dt * Slope(v, w, b, c, latency)
  {
    assert 2.0 * c * Advance(v, w, dt) == dt * ((v + w) * c);
    assert v * v - w * w == dt * ((v + w) * b);
    assert c * (v * latency) - c * (w * latency) == dt * (c * (b * latency));
  }

  /** The ground claimed at distance `x` and speed `v`. */
  function Reach(x: real, v: real, c: real, latency: real): real
    requires 0.0 < c
  {
    x + StoppingGround(v, latency, c)
  }

  /** A full period adds to the claim exactly when its slope is positive. */
  lemma SlopeSign(x: real, y: real, v: real, w: real, b: real, c: real, dt: real, latency: real)
    requires 0.0 < c && 0.0 < dt && Slows(v, w, b, dt) && y == x + Advance(v, w, dt)
    ensures Reach(y, w, c, latency) <= Reach(x, v, c, latency) <==> Slope(v, w, b, c, latency) <= 0.0
  {
    SlopeTimes(v, w, b, c, dt, latency);
    Travel.TwiceGroundIs(c, v, latency);
    Travel.TwiceGroundIs(c, w, latency);
    ProductOf(dt, Slope(v, w, b, c, latency));
    SignOfRise(c, Advance(v, w, dt), StoppingGround(w, latency, c), StoppingGround(v, latency, c),
      Travel.TwiceGround(c, w, latency), Travel.TwiceGround(c, v, latency), dt * Slope(v, w, b, c, latency));
  }

  lemma ProductOf(dt: real, slope: real)
    requires 0.0 < dt
    ensures dt * slope <= 0.0 <==> slope <= 0.0
  {
    if slope <= 0.0 {
      ProductSign(dt, -slope);
    } else {
      assert 0.0 < dt * slope;
    }
  }

  lemma SignOfRise(c: real, adv: real, after: real, before: real, twiceAfter: real, twiceBefore: real, rise: real)
    requires 0.0 < c && 2.0 * c * after == twiceAfter && 2.0 * c * before == twiceBefore
    requires 2.0 * c * adv + twiceAfter - twiceBefore == rise
    ensures adv + after <= before <==> rise <= 0.0
  {
    assert 2.0 * c * (before - adv - after) == -rise;
    ProductOf(2.0 * c, -(before - adv - after));
  }

  /** Once the slope is not positive it stays so, if braking then is no gentler than before or than planned with. */
  lemma SlopeStays(v: real, w: real, u: real, b: real, b': real, c: real, latency: real)
    requires 0.0 <= u <= w <= v && 0.0 <= b && 0.0 <= b' && 0.0 < c && 0.0 <= latency
    requires c <= b' || b <= b'
    requires Slope(v, w, b, c, latency) <= 0.0
    ensures Slope(w, u, b', c, latency) <= 0.0
  {
    ProductSign(b', latency);
    ProductSign(c, b' * latency);
    if c <= b' {
      ProductSign(w + u, b' - c);
      assert (w + u) * (c - b') == -((w + u) * (b' - c));
    } else {
      ProductSign(b' - b, latency);
      ProductSign(c, (b' - b) * latency);
      ProductSign(w + u, b' - b);
      ProductSign(v - u, c - b);
      assert (v + w) * (c - b) - (w + u) * (c - b') == (v - u) * (c - b) + (w + u) * (b' - b);
      assert c * (b' * latency) - c * (b * latency) == c * ((b' - b) * latency);
    }
  }

  /** Braking no gentler than planned with never adds to the claim. */
  lemma SharpNeverRises(v: real, w: real, b: real, c: real, latency: real)
    requires 0.0 <= v && 0.0 <= w && 0.0 < c <= b && 0.0 <= latency
    ensures Slope(v, w, b, c, latency) <= 0.0
  {
    ProductSign(b, latency);
    ProductSign(c, b * latency);
    ProductSign(v + w, b - c);
    assert (v + w) * (c - b) == -((v + w) * (b - c));
  }

  // ----- the plain profile

  /** The ground claimed by sample `n`. */
  function PlainReach(p: StopRequest, c: real, latency: real, n: nat): real
    requires p.Plain() && 0.0 < c
  {
    Reach(Plain.At(p, n).x, Plain.At(p, n).v, c, latency)
  }

  function PlainSlope(p: StopRequest, c: real, latency: real, n: nat): real
    requires p.Plain()
  {
    Slope(Remaining(p.Entry(), p.Drop(), n), Remaining(p.Entry(), p.Drop(), n + 1), p.decel, c, latency)
  }

  /** The first sample from `n` on after which the claim does not rise any more, or the last one in motion. */
  function PlainPeakFrom(p: StopRequest, c: real, latency: real, n: nat): (peak: nat)
    requires p.Plain()
    ensures n <= peak && (n < Plain.Steps(p) ==> peak < Plain.Steps(p))
    decreases Plain.Steps(p) - n
  {
    if n + 1 < Plain.Steps(p) && 0.0 < PlainSlope(p, c, latency, n) then PlainPeakFrom(p, c, latency, n + 1) else n
  }

  function PlainPeak(p: StopRequest, c: real, latency: real): nat
    requires p.Plain()
  {
    PlainPeakFrom(p, c, latency, 0)
  }

  lemma PlainNextReach(p: StopRequest, c: real, latency: real, n: nat)
    requires p.Plain() && 0.0 < c && n + 1 < Plain.Steps(p)
    ensures PlainReach(p, c, latency, n + 1) <= PlainReach(p, c, latency, n) <==> PlainSlope(p, c, latency, n) <= 0.0
  {
    Plain.SpeedAndTime(p, n);
    Plain.SpeedAndTime(p, n + 1);
    Plain.FullStep(p, n);
    var m, k := Plain.At(p, n), Plain.At(p, n + 1);
    assert k.x == m.x + Advance(m.v, k.v, p.dt);
    SlopeSign(m.x, k.x, m.v, k.v, p.decel, c, p.dt, latency);
  }

  lemma PlainSlopeStays(p: StopRequest, c: real, latency: real, n: nat)
    requires p.Plain() && 0.0 < c && 0.0 <= latency && PlainSlope(p, c, latency, n) <= 0.0
    ensures PlainSlope(p, c, latency, n + 1) <= 0.0
  {
    var entry, drop := p.Entry(), p.Drop();
    RemainingNext(entry, drop, n);
    RemainingNext(entry, drop, n + 1);
    SlopeStays(Remaining(entry, drop, n), Remaining(entry, drop, n + 1), Remaining(entry, drop, n + 2),
      p.decel, p.decel, c, latency);
  }

  lemma {:induction false} PlainFalls(p: StopRequest, c: real, latency: real, from: nat, n: nat)
    requires p.Plain() && 0.0 < c && 0.0 <= latency && from <= n < Plain.Steps(p)
    requires PlainSlope(p, c, latency, from) <= 0.0
    ensures PlainReach(p, c, latency, n) <= PlainReach(p, c, latency, from)
    decreases n - from
  {
    if from < n {
      PlainNextReach(p, c, latency, from);
      PlainSlopeStays(p, c, latency, from);
      PlainFalls(p, c, latency, from + 1, n);
    }
  }

  /** No sample in motion claims more ground than the one at the peak. */
  lemma {:induction false} PlainPeakIsHighest(p: StopRequest, c: real, latency: real, from: nat, n: nat)
    requires p.Plain() && 0.0 < c && 0.0 <= latency && from <= n < Plain.Steps(p)
    ensures PlainReach(p, c, latency, n) <= PlainReach(p, c, latency, PlainPeakFrom(p, c, latency, from))
    decreases Plain.Steps(p) - from
  {
    if PlainSlope(p, c, latency, from) <= 0.0 {
      PlainFalls(p, c, latency, from, n);
    } else if from + 1 < Plain.Steps(p) {
      PlainNextReach(p, c, latency, from);
      PlainPeakIsHighest(p, c, latency, from + 1, if from < n then n else from + 1);
    }
  }

  /** With planned braking no sharper than the profile's the peak is the first sample. */
  lemma GentlePlanPeaksFirst(p: StopRequest, c: real, latency: real)
    requires p.Plain() && 0.0 < c <= p.decel && 0.0 <= latency
    ensures PlainPeak(p, c, latency) == 0
  {
    SharpNeverRises(Remaining(p.Entry(), p.Drop(), 0), Remaining(p.Entry(), p.Drop(), 1), p.decel, c, latency);
  }

  // ----- the jerk-limited profile

  function SmoothReach(p: StopRequest, c: real, latency: real, n: nat): real
    requires p.JerkLimited() && 0.0 < c
  {
    Reach(Smooth.At(p, n).x, Smooth.At(p, n).v, c, latency)
  }

  function SmoothSlope(p: StopRequest, c: real, latency: real, n: nat): real
    requires p.JerkLimited()
  {
    Slope(Smooth.At(p, n).v, Smooth.At(p, n + 1).v, -Smooth.At(p, n + 1).a, c, latency)
  }

  function SmoothPeakFrom(p: StopRequest, c: real, latency: real, n: nat): (peak: nat)
    requires p.JerkLimited()
    ensures n <= peak && (n < Smooth.Steps(p) ==> peak < Smooth.Steps(p))
    decreases Smooth.Steps(p) - n
  {
    if n + 1 < Smooth.Steps(p) && 0.0 < SmoothSlope(p, c, latency, n) then SmoothPeakFrom(p, c, latency, n + 1) else n
  }

  function SmoothPeak(p: StopRequest, c: real, latency: real): nat
    requires p.JerkLimited()
  {
    SmoothPeakFrom(p, c, latency, 0)
  }

  lemma SlowsUnlessStopped(v: real, w: real, a: real, dt: real)
    requires 0.0 < w == Max(0.0, v + a * dt)
    ensures Slows(v, w, -a, dt)
  {
    ProductNegated(-a, a, dt);
  }

  lemma PeriodOf(p: StopRequest, m: Smooth.Motion)
    requires p.JerkLimited() && 0.0 <= m.v && -p.decel <= m.a <= 0.0 && 0.0 < Smooth.Next(p, m).v
    ensures var k := Smooth.Next(p, m);
            && 0.0 < k.v <= m.v && Slows(m.v, k.v, -k.a, p.dt)
            && k.x == m.x + Advance(m.v, k.v, p.dt)
            && k.a == Smooth.Steer(p, m.v, m.a).a
  {
    Smooth.StaysStopped(p, m);
    Travel.NextIs(p, m);
    SlowsUnlessStopped(m.v, Smooth.Next(p, m).v, Smooth.Next(p, m).a, p.dt);
  }

  lemma SmoothPeriod(p: StopRequest, n: nat)
    requires p.JerkLimited() && n + 1 < Smooth.Steps(p)
    ensures var m, k := Smooth.At(p, n), Smooth.At(p, n + 1);
            && 0.0 < k.v <= m.v && Slows(m.v, k.v, -k.a, p.dt)
            && k.x == m.x + Advance(m.v, k.v, p.dt)
            && k.a == Smooth.Steer(p, m.v, m.a).a
  {
    Smooth.MovingIffBeforeEnd(p, n + 1);
    assert Smooth.At(p, n + 1) == Smooth.Next(p, Smooth.At(p, n));
    PeriodOf(p, Smooth.At(p, n));
  }

  lemma SmoothNextReach(p: StopRequest, c: real, latency: real, n: nat)
    requires p.JerkLimited() && 0.0 < c && n + 1 < Smooth.Steps(p)
    ensures SmoothReach(p, c, latency, n + 1) <= SmoothReach(p, c, latency, n) <==> SmoothSlope(p, c, latency, n) <= 0.0
  {
    var m, k := Smooth.At(p, n), Smooth.At(p, n + 1);
    SmoothPeriod(p, n);
    SlopeSign(m.x, k.x, m.v, k.v, -k.a, c, p.dt, latency);
  }

  /** `2c` times the ground claimed, with the credit that full deceleration sets aside for easing off. */
  function Raised(p: StopRequest, c: real, latency: real, n: nat): real
    requires p.JerkLimited()
  {
    var m := Smooth.At(p, n);
    Travel.Potential(c, m.x, m.v, 0.0, latency, Travel.Credit(p, c, m.a))
  }

  predicate Twice(c: real, reach: real, twice: real) {
    2.0 * c * reach == twice
  }

  predicate AtMostTwice(c: real, reach: real, twice: real) {
    2.0 * c * reach <= twice
  }

  lemma RaisedCovers(p: StopRequest, c: real, latency: real, n: nat)
    requires p.JerkLimited() && 0.0 < c
    ensures AtMostTwice(c, SmoothReach(p, c, latency, n), Raised(p, c, latency, n))
    ensures !Smooth.Full(p, Smooth.At(p, n).a) ==> Twice(c, SmoothReach(p, c, latency, n), Raised(p, c, latency, n))
  {
    var m := Smooth.At(p, n);
    Travel.CreditSign(p, c, m.a);
    PotentialIsTwice(c, m.x, m.v, latency, Travel.Credit(p, c, m.a));
  }

  lemma PotentialIsTwice(c: real, x: real, v: real, latency: real, credit: real)
    requires 0.0 < c && 0.0 <= v && 0.0 <= credit
    ensures AtMostTwice(c, Reach(x, v, c, latency), Travel.Potential(c, x, v, 0.0, latency, credit))
    ensures credit == 0.0 ==> Twice(c, Reach(x, v, c, latency), Travel.Potential(c, x, v, 0.0, latency, credit))
  {
    Travel.PotentialCovers(c, x, v, 0.0, latency, credit);
    TwiceReach(c, x, v, latency);
  }

  lemma TwiceReach(c: real, x: real, v: real, latency: real)
    requires 0.0 < c
    ensures Twice(c, Reach(x, v, c, latency), 2.0 * (c * x) + Travel.TwiceGround(c, v, latency))
    ensures Travel.Potential(c, x, v, 0.0, latency, 0.0) == 2.0 * (c * x) + Travel.TwiceGround(c, v, latency)
  {
    Travel.TwiceGroundIs(c, v, latency);
    TwiceSum(c, x, StoppingGround(v, latency, c), Travel.TwiceGround(c, v, latency));
  }

  lemma TwiceSum(c: real, x: real, g: real, twice: real)
    requires 2.0 * c * g == twice
    ensures Twice(c, x + g, 2.0 * (c * x) + twice)
  {
  }

  /** Period `n` belongs to the ramp: it neither reaches full deceleration nor eases off from it. */
  predicate Ramps(p: StopRequest, n: nat)
    requires p.JerkLimited()
  {
    !Smooth.Full(p, Smooth.At(p, n).a) && !Smooth.Full(p, Smooth.At(p, n + 1).a)
  }

  /** Nothing of the ramp raises the claim any more. */
  predicate Settled(p: StopRequest, c: real, latency: real, n: nat)
    requires p.JerkLimited()
  {
    Ramps(p, n) ==> SmoothSlope(p, c, latency, n) <= 0.0
  }

  lemma SettledStays(p: StopRequest, c: real, latency: real, n: nat)
    requires p.JerkLimited() && 0.0 < c && 0.0 <= latency && Settled(p, c, latency, n)
    ensures Settled(p, c, latency, n + 1)
  {
    var m, k, l := Smooth.At(p, n), Smooth.At(p, n + 1), Smooth.At(p, n + 2);
    if Ramps(p, n + 1) {
      Travel.SteerCases(p, m.v, m.a, k.a);
      Travel.SteerCases(p, k.v, k.a, l.a);
      ProductSign(p.jerk, p.dt);
      Smooth.StaysStopped(p, m);
      Smooth.StaysStopped(p, k);
      assert Ramps(p, n) && -k.a <= -l.a;
      SlopeStays(m.v, k.v, l.v, -k.a, -l.a, c, latency);
    }
  }

  lemma MovingCost(v: real, w: real, b: real, k: real, dt: real, h: real)
    requires 0.0 < k && 0.0 <= b && 0.0 < dt && 0.0 <= h && 0.0 <= w <= v && Slows(v, w, b, dt)
    ensures Travel.CostsAtMost(Advance(v, w, dt), v, w, k, h, Travel.Excess(v, w, b, k, dt))
  {
    Travel.UnclampedCost(v, w, b, k, dt);
    ProductSign(h, v - w);
    ProductSign(k, h * (v - w));
  }

  /** A period outside the ramp is covered by the credit, whatever the latency. */
  lemma FullOrEasedPaid(p: StopRequest, c: real, v: real, w: real, a: real, a': real)
    requires p.JerkLimited() && 0.0 < c <= Travel.MeanDecel(p) && 0.0 <= w <= v
    requires a' == -p.decel || (a == -p.decel && a' == -(p.decel - Travel.Ease(p)))
    ensures Travel.Covered(c, v, w, 0.0, 0.0, Travel.Credit(p, c, a), Travel.Credit(p, c, a'),
              Travel.Excess(v, w, -a', c, p.dt))
  {
    Travel.CreditSign(p, c, a);
    if a' == -p.decel {
      Travel.FullPays(v, w, p.decel, Travel.Ease(p), c, p.dt, 0.0, Travel.Credit(p, c, a));
    } else {
      Travel.EaseIsPaid(v, w, -a', c, p.dt);
    }
  }

  lemma RaisedFalls(p: StopRequest, c: real, latency: real, n: nat)
    requires p.JerkLimited() && 0.0 < c <= Travel.MeanDecel(p) && 0.0 <= latency && n + 1 < Smooth.Steps(p)
    requires Settled(p, c, latency, n)
    ensures Raised(p, c, latency, n + 1) <= Raised(p, c, latency, n)
  {
    var m, k := Smooth.At(p, n), Smooth.At(p, n + 1);
    SmoothPeriod(p, n);
    Travel.SteerCases(p, m.v, m.a, k.a);
    if Ramps(p, n) {
      RampRaisedFalls(p, c, latency, n);
    } else {
      OtherRaisedFalls(p, c, latency, m, k);
    }
  }

  lemma OtherRaisedFalls(p: StopRequest, c: real, latency: real, m: Smooth.Motion, k: Smooth.Motion)
    requires p.JerkLimited() && 0.0 < c <= Travel.MeanDecel(p) && 0.0 <= latency
    requires 0.0 <= k.v <= m.v && k.a <= 0.0 && Slows(m.v, k.v, -k.a, p.dt) && k.x == m.x + Advance(m.v, k.v, p.dt)
    requires k.a == -p.decel || (m.a == -p.decel && k.a == -(p.decel - Travel.Ease(p)))
    ensures Travel.Potential(c, k.x, k.v, 0.0, latency, Travel.Credit(p, c, k.a))
         <= Travel.Potential(c, m.x, m.v, 0.0, latency, Travel.Credit(p, c, m.a))
  {
    FullOrEasedPaid(p, c, m.v, k.v, m.a, k.a);
    MovingCost(m.v, k.v, -k.a, c, p.dt, latency);
    Travel.PotentialStep(c, m.x, Advance(m.v, k.v, p.dt), m.v, k.v, 0.0, 0.0, latency,
      Travel.Credit(p, c, m.a), Travel.Credit(p, c, k.a), Travel.Excess(m.v, k.v, -k.a, c, p.dt));
  }

  lemma RampRaisedFalls(p: StopRequest, c: real, latency: real, n: nat)
    requires p.JerkLimited() && 0.0 < c && n + 1 < Smooth.Steps(p)
    requires Ramps(p, n) && SmoothSlope(p, c, latency, n) <= 0.0
    ensures Raised(p, c, latency, n + 1) <= Raised(p, c, latency, n)
  {
    SmoothNextReach(p, c, latency, n);
    RaisedCovers(p, c, latency, n);
    RaisedCovers(p, c, latency, n + 1);
    TwiceOrder(c, SmoothReach(p, c, latency, n + 1), SmoothReach(p, c, latency, n),
      Raised(p, c, latency, n + 1), Raised(p, c, latency, n));
  }

  lemma {:induction false} SettledFalls(p: StopRequest, c: real, latency: real, from: nat, n: nat)
    requires p.JerkLimited() && 0.0 < c <= Travel.MeanDecel(p) && 0.0 <= latency
    requires from <= n < Smooth.Steps(p) && Settled(p, c, latency, from)
    ensures Raised(p, c, latency, n) <= Raised(p, c, latency, from)
    decreases n - from
  {
    if from < n {
      RaisedFalls(p, c, latency, from);
      SettledStays(p, c, latency, from);
      SettledFalls(p, c, latency, from + 1, n);
    }
  }

  lemma ReachFalls(p: StopRequest, c: real, latency: real, from: nat, n: nat)
    requires p.JerkLimited() && 0.0 < c <= Travel.MeanDecel(p) && 0.0 <= latency
    requires from <= n < Smooth.Steps(p) && Settled(p, c, latency, from) && !Smooth.Full(p, Smooth.At(p, from).a)
    ensures SmoothReach(p, c, latency, n) <= SmoothReach(p, c, latency, from)
  {
    SettledFalls(p, c, latency, from, n);
    RaisedCovers(p, c, latency, n);
    RaisedCovers(p, c, latency, from);
    ReachOrder(c, SmoothReach(p, c, latency, n), SmoothReach(p, c, latency, from),
      Raised(p, c, latency, n), Raised(p, c, latency, from));
  }

  lemma TwiceOrder(c: real, a: real, b: real, twiceA: real, twiceB: real)
    requires 0.0 < c && Twice(c, a, twiceA) && Twice(c, b, twiceB) && a <= b
    ensures twiceA <= twiceB
  {
    ProductSign(2.0 * c, b - a);
  }

  lemma ReachOrder(c: real, a: real, b: real, twiceA: real, twiceB: real)
    requires 0.0 < c && AtMostTwice(c, a, twiceA) && Twice(c, b, twiceB) && twiceA <= twiceB
    ensures a <= b
  {
    assert 2.0 * c * (b - a) == 2.0 * c * b - 2.0 * c * a;
    FactorSign(2.0 * c, b - a);
  }

  /** A period at full deceleration never raises the claim. */
  lemma FullNeverRises(p: StopRequest, c: real, latency: real, n: nat)
    requires p.JerkLimited() && 0.0 < c <= p.decel && 0.0 <= latency && Smooth.Full(p, Smooth.At(p, n + 1).a)
    ensures SmoothSlope(p, c, latency, n) <= 0.0
  {
    SharpNeverRises(Smooth.At(p, n).v, Smooth.At(p, n + 1).v, -Smooth.At(p, n + 1).a, c, latency);
  }

  /** With planned braking up to the mean deceleration, no sample in motion claims more ground than the peak. */
  lemma {:induction false} SmoothPeakIsHighest(p: StopRequest, c: real, latency: real, from: nat, n: nat)
    requires p.JerkLimited() && 0.0 < c <= Travel.MeanDecel(p) && 0.0 <= latency
    requires from <= n < Smooth.Steps(p) && !Smooth.Full(p, Smooth.At(p, from).a)
    ensures SmoothReach(p, c, latency, n) <= SmoothReach(p, c, latency, SmoothPeakFrom(p, c, latency, from))
    decreases Smooth.Steps(p) - from
  {
    if SmoothSlope(p, c, latency, from) <= 0.0 {
      ReachFalls(p, c, latency, from, n);
    } else if from + 1 < Smooth.Steps(p) {
      if Smooth.Full(p, Smooth.At(p, from + 1).a) {
        FullNeverRises(p, c, latency, from);
      }
      SmoothNextReach(p, c, latency, from);
      SmoothPeakIsHighest(p, c, latency, from + 1, if from < n then n else from + 1);
    }
  }
}
