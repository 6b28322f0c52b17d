/** How far a jerk-limited stop travels: a potential that no period of it raises. */
module SmoothTravel {
  import opened Numeric
  import opened SafetyEnvelope
  import opened StopProfile
  import Smooth = JerkLimitedStop

  /** What easing off takes from full deceleration for one period. */
  function Ease(p: StopRequest): (e: real)
    requires p.JerkLimited()
    ensures 0.0 < e <= p.decel
  {
    assert 0.0 < p.jerk * p.dt;
    Min(p.decel, p.jerk * p.dt)
  }

  /** Mean deceleration of a full period and an eased one. */
  function MeanDecel(p: StopRequest): (d: real)
    requires p.JerkLimited()
    ensures p.decel / 2.0 <= d < p.decel
  {
    p.decel - Ease(p) / 2.0
  }

  /** Time until the period that reaches full deceleration, when jerk is limited and `a` is applied now. */
  function RampDelay(p: StopRequest, a: real): (r: real)
    requires p.JerkLimited()
    ensures 0.0 <= r
  {
    Delay(p.decel, p.jerk, p.dt, a)
  }

  function Delay(d: real, j: real, dt: real, a: real): real
    requires 0.0 < j
  {
    Max(0.0, (d + a) / j - dt)
  }

  /** Set aside at full deceleration for an eased period that may follow; `k` is the deceleration planned with. */
  function Credit(p: StopRequest, k: real, a: real): real
    requires p.JerkLimited()
  {
    if Smooth.Full(p, a) then FullCredit(p.dt, k, p.decel - Ease(p)) else 0.0
  }

  function FullCredit(dt: real, k: real, eased: real): real {
    2.0 * dt * Max(0.0, k - eased)
  }

  /** `2k` times the ground claimed at speed `v` and distance `x`, coasting for `r + h`, plus a credit. */
  function Potential(k: real, x: real, v: real, r: real, h: real, credit: real): real {
    2.0 * k * (x + v * (r + h)) + v * v + credit * v
  }

  function PotentialAt(p: StopRequest, k: real, h: real, m: Smooth.Motion): real
    requires p.JerkLimited()
  {
    Potential(k, m.x, m.v, RampDelay(p, m.a), h, Credit(p, k, m.a))
  }

  // ----- one period in real arithmetic

  /** What a period at deceleration `b` adds beyond braking at `k`; negative when `b` is the sharper. */
  function Excess(v: real, w: real, b: real, k: real, dt: real): real {
    2.0 * dt * ((k - b) * (if b <= k then v else w))
  }

  lemma UnclampedCost(v: real, w: real, b: real, k: real, dt: real)
    requires 0.0 <= b && 0.0 < dt && 0.0 <= w == v - b * dt
    ensures 2.0 * k * Advance(v, w, dt) + w * w - v * v <= Excess(v, w, b, k, dt)
  {
    ProductSign(b, dt);
    assert v * v - w * w == (v + w) * (b * dt);
    assert 2.0 * k * Advance(v, w, dt) == (v + w) * (k * dt);
    assert (v + w) * (k * dt) - (v + w) * (b * dt) == dt * ((k - b) * (v + w));
    if b <= k {
      ProductSign(k - b, v - w);
      ProductSign(dt, (k - b) * (v - w));
      assert 2.0 * dt * ((k - b) * v) - dt * ((k - b) * (v + w)) == dt * ((k - b) * (v - w));
    } else {
      ProductSign(b - k, v - w);
      ProductSign(dt, (b - k) * (v - w));
      assert 2.0 * dt * ((k - b) * w) - dt * ((k - b) * (v + w)) == dt * ((b - k) * (v - w));
    }
  }

  lemma ClampedCost(v: real, b: real, k: real, dt: real, h: real)
    requires 0.0 < k && 0.0 <= b && 0.0 <= v && 0.0 < dt <= 2.0 * h
    ensures 2.0 * k * Advance(v, 0.0, dt) - v * v - 2.0 * k * (h * v) <= Excess(v, 0.0, b, k, dt)
  {
    SquareSign(v);
    ProductSign(v, 2.0 * h - dt);
    ProductSign(k, v * (2.0 * h - dt));
    assert 2.0 * k * Advance(v, 0.0, dt) - 2.0 * k * (h * v) == -(k * (v * (2.0 * h - dt)));
    if b <= k {
      ProductSign(k - b, v);
      ProductSign(dt, (k - b) * v);
    }
  }

  /** Going `adv` far while slowing from `v` to `w` claims at most `excess` more ground, times `2k`. */
  predicate CostsAtMost(adv: real, v: real, w: real, k: real, h: real, excess: real) {
    2.0 * k * adv + w * w - v * v - 2.0 * k * (h * (v - w)) <= excess
  }

  lemma PeriodCost(v: real, w: real, a: real, k: real, dt: real, h: real)
    requires 0.0 < k && a <= 0.0 <= v && 0.0 < dt <= 2.0 * h && w == Max(0.0, v + a * dt)
    ensures 0.0 <= w <= v
    ensures CostsAtMost(Advance(v, w, dt), v, w, k, h, Excess(v, w, -a, k, dt))
  {
    var b := -a;
    ProductNegated(a, b, dt);
    ProductSign(b, dt);
    if w == 0.0 {
      ClampedCost(v, b, k, dt, h);
    } else {
      UnclampedCost(v, w, b, k, dt);
      ProductSign(h, v - w);
      ProductSign(k, h * (v - w));
    }
  }

  /** Delay and credit given up over a period pay for `excess`. */
  predicate Covered(k: real, v: real, w: real, r: real, r': real, c: real, c': real, excess: real) {
    excess <= 2.0 * k * (v * r - w * r') + (c * v - c' * w)
  }

  lemma PotentialStep(
    k: real, x: real, adv: real, v: real, w: real, r: real, r': real, h: real, c: real, c': real, excess: real)
    requires CostsAtMost(adv, v, w, k, h, excess) && Covered(k, v, w, r, r', c, c', excess)
    ensures Potential(k, x + adv, w, r', h, c') <= Potential(k, x, v, r, h, c)
  {
    assert Potential(k, x, v, r, h, c) == 2.0 * k * x + 2.0 * k * (v * r) + 2.0 * k * (h * v) + v * v + c * v;
    assert Potential(k, x + adv, w, r', h, c')
        == 2.0 * k * x + 2.0 * k * adv + 2.0 * k * (w * r') + 2.0 * k * (h * w) + w * w + c' * w;
  }

  /** A period at full deceleration earns its own credit. */
  lemma FullPays(v: real, w: real, d: real, e: real, k: real, dt: real, r: real, c: real)
    requires 0.0 <= w <= v && 0.0 < k <= d - e / 2.0 && 0.0 < e && 0.0 < dt && 0.0 <= r && 0.0 <= c
    ensures Covered(k, v, w, r, 0.0, c, FullCredit(dt, k, d - e), Excess(v, w, d, k, dt))
  {
    ProductSign(v, r);
    ProductSign(k, v * r);
    ProductSign(c, v);
    var short := d - k - Max(0.0, k - (d - e));
    ProductSign(short, w);
    ProductSign(dt, short * w);
    assert 2.0 * dt * ((k - d) * w) + FullCredit(dt, k, d - e) * w == -2.0 * (dt * (short * w));
  }

  /** An eased period is paid by the credit of the one before it. */
  lemma EaseIsPaid(v: real, w: real, b: real, k: real, dt: real)
    requires 0.0 <= w <= v && 0.0 < dt
    ensures Covered(k, v, w, 0.0, 0.0, FullCredit(dt, k, b), 0.0, Excess(v, w, b, k, dt))
  {
    if b <= k {
      assert 2.0 * dt * ((k - b) * v) == 2.0 * dt * (k - b) * v;
    } else {
      ProductSign(b - k, w);
      ProductSign(dt, (b - k) * w);
      assert 2.0 * dt * ((k - b) * w) == -2.0 * (dt * ((b - k) * w));
    }
  }

  /** A period of the ramp is paid by the delay it uses up. */
  lemma RampIsPaid(v: real, w: real, b: real, d: real, j: real, k: real, dt: real, r: real)
    requires 0.0 <= w <= v && 0.0 < k <= d && 0.0 < dt && 0.0 < j && j * dt <= b < d
    requires r * j == d - b && 0.0 <= r
    ensures Covered(k, v, w, r, Max(0.0, r - dt), 0.0, 0.0, Excess(v, w, b, k, dt))
  {
    var r' := Max(0.0, r - dt);
    ProductSign(v - w, r');
    assert v * r - w * r' == v * (r - r') + (v - w) * r';
    ProductSign(k, (v - w) * r');
    ProductSign(v, r - r');
    ProductSign(k, v * (r - r'));
    if b <= k {
      RampRate(b, d, j, k, dt, r);
      ProductSign(v, k * (r - r') - dt * (k - b));
      assert v * (k * (r - r') - dt * (k - b)) == k * (v * (r - r')) - dt * ((k - b) * v);
    } else {
      ProductSign(b - k, w);
      ProductSign(dt, (b - k) * w);
      assert 2.0 * dt * ((k - b) * w) == -2.0 * (dt * ((b - k) * w));
    }
  }

  lemma RampRate(b: real, d: real, j: real, k: real, dt: real, r: real)
    requires 0.0 < k <= d && 0.0 < dt && 0.0 < j && j * dt <= b < d && b <= k
    requires r * j == d - b && 0.0 <= r
    ensures dt * (k - b) <= k * (r - Max(0.0, r - dt))
  {
    ProductSign(j, dt);
    ProductSign(dt, b);
    if r < dt {
      ProductSign(d - j * dt, k - b);
      ProductSign(b, d - k);
      assert j * (k * r - dt * (k - b)) == k * (d - b) - (j * dt) * (k - b);
      assert k * (d - b) - d * (k - b) == b * (d - k);
      FactorSign(j, k * r - dt * (k - b));
    }
  }

  // ----- one period of the profile

  /** Where the generator's choice leads: to full deceleration, from it to easing, or along the ramp. */
  lemma SteerCases(p: StopRequest, v: real, a: real, a': real)
    requires p.JerkLimited() && -p.decel <= a <= 0.0 && a' == Smooth.Steer(p, v, a).a
    ensures || a' == -p.decel
            || (a == -p.decel && a' == -(p.decel - Ease(p)))
            || (-p.decel < a && a' == a - p.jerk * p.dt && -p.decel < a')
  {
  }

  lemma DelayEased(d: real, j: real, dt: real, e: real)
    requires 0.0 < j && e <= j * dt
    ensures Delay(d, j, dt, -(d - e)) == 0.0
  {
    QuotientMonotone(e, j * dt, j);
    assert (j * dt) / j == dt;
  }

  lemma DelayFull(d: real, j: real, dt: real)
    requires 0.0 < j && 0.0 < dt
    ensures Delay(d, j, dt, -d) == 0.0
  {
  }

  lemma DelayRamp(d: real, j: real, dt: real, a: real, a': real)
    requires 0.0 < j && a' == a - j * dt && -d < a'
    ensures Delay(d, j, dt, a) * j == d + a'
    ensures Delay(d, j, dt, a') == Max(0.0, Delay(d, j, dt, a) - dt)
  {
    assert (j * dt) / j == dt;
    assert (d + a) / j == (d + a') / j + (j * dt) / j;
    QuotientSign(d + a', j);
  }

  /** The coming period, from `v` and `a` to `w` and `a'`, is paid by delay and credit. */
  predicate Paid(p: StopRequest, k: real, v: real, w: real, a: real, a': real)
    requires p.JerkLimited()
  {
    Covered(k, v, w, RampDelay(p, a), RampDelay(p, a'), Credit(p, k, a), Credit(p, k, a'), Excess(v, w, -a', k, p.dt))
  }

  lemma FullChoice(p: StopRequest, k: real, v: real, w: real, a: real, a': real)
    requires p.JerkLimited() && 0.0 < k <= MeanDecel(p) && 0.0 <= w <= v && a' == -p.decel
    ensures Paid(p, k, v, w, a, a')
  {
    DelayFull(p.decel, p.jerk, p.dt);
    CreditSign(p, k, a);
    FullPays(v, w, p.decel, Ease(p), k, p.dt, RampDelay(p, a), Credit(p, k, a));
  }

  lemma EasedChoice(p: StopRequest, k: real, v: real, w: real, a: real, a': real)
    requires p.JerkLimited() && 0.0 <= w <= v && a == -p.decel && a' == -(p.decel - Ease(p))
    ensures Paid(p, k, v, w, a, a')
  {
    DelayFull(p.decel, p.jerk, p.dt);
    DelayEased(p.decel, p.jerk, p.dt, Ease(p));
    EaseIsPaid(v, w, -a', k, p.dt);
  }

  lemma RampChoice(p: StopRequest, k: real, v: real, w: real, a: real, a': real)
    requires p.JerkLimited() && 0.0 < k <= MeanDecel(p) && 0.0 <= w <= v
    requires -p.decel < a <= 0.0 && a' == a - p.jerk * p.dt && -p.decel < a'
    ensures Paid(p, k, v, w, a, a')
  {
    DelayRamp(p.decel, p.jerk, p.dt, a, a');
    RampIsPaid(v, w, -a', p.decel, p.jerk, k, p.dt, RampDelay(p, a));
  }

  lemma ChoiceIsPaid(p: StopRequest, k: real, v: real, w: real, a: real)
    requires p.JerkLimited() && 0.0 < k <= MeanDecel(p) && 0.0 <= w <= v && -p.decel <= a <= 0.0
    ensures Paid(p, k, v, w, a, Smooth.Steer(p, v, a).a)
  {
    var a' := Smooth.Steer(p, v, a).a;
    SteerCases(p, v, a, a');
    if a' == -p.decel {
      FullChoice(p, k, v, w, a, a');
    } else if a == -p.decel {
      EasedChoice(p, k, v, w, a, a');
    } else {
      RampChoice(p, k, v, w, a, a');
    }
  }

  lemma CreditSign(p: StopRequest, k: real, a: real)
    requires p.JerkLimited()
    ensures 0.0 <= Credit(p, k, a)
  {
    ProductSign(p.dt, Max(0.0, k - (p.decel - Ease(p))));
    assert FullCredit(p.dt, k, p.decel - Ease(p)) == 2.0 * (p.dt * Max(0.0, k - (p.decel - Ease(p))));
  }

  lemma PotentialFalls(p: StopRequest, k: real, h: real, m: Smooth.Motion)
    requires p.JerkLimited() && 0.0 < k <= MeanDecel(p) && p.dt <= 2.0 * h
    requires 0.0 <= m.v && -p.decel <= m.a <= 0.0
    ensures PotentialAt(p, k, h, Smooth.Next(p, m)) <= PotentialAt(p, k, h, m)
  {
    NextCosts(p, k, h, m);
    NextIsPaid(p, k, m);
    PaidFalls(p, k, h, m, Smooth.Next(p, m));
  }

  lemma NextCosts(p: StopRequest, k: real, h: real, m: Smooth.Motion)
    requires p.JerkLimited() && 0.0 < k && p.dt <= 2.0 * h && 0.0 <= m.v && -p.decel <= m.a <= 0.0
    ensures var n := Smooth.Next(p, m);
            && n.x == m.x + Advance(m.v, n.v, p.dt)
            && CostsAtMost(Advance(m.v, n.v, p.dt), m.v, n.v, k, h, Excess(m.v, n.v, -n.a, k, p.dt))
  {
    NextIs(p, m);
    PeriodCost(m.v, Smooth.Next(p, m).v, Smooth.Next(p, m).a, k, p.dt, h);
  }

  lemma NextIsPaid(p: StopRequest, k: real, m: Smooth.Motion)
    requires p.JerkLimited() && 0.0 < k <= MeanDecel(p) && 0.0 <= m.v && -p.decel <= m.a <= 0.0
    ensures Paid(p, k, m.v, Smooth.Next(p, m).v, m.a, Smooth.Next(p, m).a)
  {
    NextIs(p, m);
    Smooth.StaysStopped(p, m);
    ChoiceIsPaid(p, k, m.v, Smooth.Next(p, m).v, m.a);
  }

  lemma NextIs(p: StopRequest, m: Smooth.Motion)
    requires p.JerkLimited() && -p.decel <= m.a <= 0.0
    ensures var n := Smooth.Next(p, m);
            && n.a == Smooth.Steer(p, m.v, m.a).a <= 0.0
            && n.v == Max(0.0, m.v + n.a * p.dt)
            && n.x == m.x + Advance(m.v, n.v, p.dt)
  {
  }

  lemma PaidFalls(p: StopRequest, k: real, h: real, m: Smooth.Motion, n: Smooth.Motion)
    requires p.JerkLimited() && n.x == m.x + Advance(m.v, n.v, p.dt) && Paid(p, k, m.v, n.v, m.a, n.a)
    requires CostsAtMost(Advance(m.v, n.v, p.dt), m.v, n.v, k, h, Excess(m.v, n.v, -n.a, k, p.dt))
    ensures PotentialAt(p, k, h, n) <= PotentialAt(p, k, h, m)
  {
    PotentialStep(k, m.x, Advance(m.v, n.v, p.dt), m.v, n.v, RampDelay(p, m.a), RampDelay(p, n.a), h,
      Credit(p, k, m.a), Credit(p, k, n.a), Excess(m.v, n.v, -n.a, k, p.dt));
  }

  // ----- the whole profile

  lemma {:induction false} PotentialNeverRises(p: StopRequest, k: real, h: real, n: nat)
    requires p.JerkLimited() && 0.0 < k <= MeanDecel(p) && p.dt <= 2.0 * h
    ensures PotentialAt(p, k, h, Smooth.At(p, n)) <= PotentialAt(p, k, h, Smooth.At(p, 0))
  {
    if n > 0 {
      PotentialNeverRises(p, k, h, n - 1);
      PotentialFalls(p, k, h, Smooth.At(p, n - 1));
    }
  }

  /** The wait for full deceleration at the start of a stop. */
  function StartDelay(p: StopRequest): real
    requires p.JerkLimited()
  {
    RampDelay(p, 0.0)
  }

  /**
   * At every sample, what is behind and what braking at `k` would still take after `h` is within what coasting for
   * the initial delay and `h` and then braking at `k` would take from the start.
   */
  lemma SmoothClaimFits(p: StopRequest, k: real, h: real, n: nat)
    requires p.JerkLimited() && 0.0 < k <= MeanDecel(p) && p.dt <= 2.0 * h
    ensures var m := Smooth.At(p, n);
            m.x + StoppingGround(m.v, h, k) <= StoppingGround(p.Entry(), StartDelay(p) + h, k)
  {
    var m := Smooth.At(p, n);
    PotentialNeverRises(p, k, h, n);
    CreditSign(p, k, m.a);
    assert Credit(p, k, 0.0) == 0.0;
    GroundFromPotential(k, m.x, m.v, RampDelay(p, m.a), h, Credit(p, k, m.a), p.Entry(), StartDelay(p));
  }

  function TwiceGround(k: real, v: real, h: real): real {
    2.0 * k * (v * h) + v * v
  }

  lemma TwiceGroundIs(k: real, v: real, h: real)
    requires 0.0 < k
    ensures 2.0 * k * StoppingGround(v, h, k) == TwiceGround(k, v, h)
  {
    assert 2.0 * k * ((v * v) / (2.0 * k)) == v * v;
  }

  lemma GroundFromPotential(k: real, x: real, v: real, r: real, h: real, c: real, entry: real, delay: real)
    requires 0.0 < k && 0.0 <= v && 0.0 <= r && 0.0 <= c
    requires Potential(k, x, v, r, h, c) <= Potential(k, 0.0, entry, delay, h, 0.0)
    ensures x + StoppingGround(v, h, k) <= StoppingGround(entry, delay + h, k)
  {
    TwiceGroundIs(k, v, h);
    TwiceGroundIs(k, entry, delay + h);
    PotentialCovers(k, x, v, r, h, c);
    PotentialAtStart(k, entry, delay, h);
    GroundOrder(k, x, StoppingGround(v, h, k), StoppingGround(entry, delay + h, k),
      TwiceGround(k, v, h), TwiceGround(k, entry, delay + h));
  }

  lemma PotentialCovers(k: real, x: real, v: real, r: real, h: real, c: real)
    requires 0.0 < k && 0.0 <= v && 0.0 <= r && 0.0 <= c
    ensures 2.0 * (k * x) + TwiceGround(k, v, h) <= Potential(k, x, v, r, h, c)
  {
    ProductSign(v, r);
    ProductSign(k, v * r);
    ProductSign(c, v);
    assert Potential(k, x, v, r, h, c) == 2.0 * (k * x) + TwiceGround(k, v, h) + 2.0 * (k * (v * r)) + c * v;
  }

  lemma PotentialAtStart(k: real, entry: real, delay: real, h: real)
    ensures Potential(k, 0.0, entry, delay, h, 0.0) == TwiceGround(k, entry, delay + h)
  {
  }

  lemma GroundOrder(k: real, x: real, now: real, start: real, twiceNow: real, twiceStart: real)
    requires 0.0 < k && 2.0 * (k * x) + twiceNow <= twiceStart
    requires 2.0 * k * now == twiceNow && 2.0 * k * start == twiceStart
    ensures x + now <= start
  {
    assert 2.0 * k * (start - now - x) == twiceStart - twiceNow - 2.0 * (k * x);
    FactorSign(2.0 * k, start - now - x);
  }

  /**
   * A jerk-limited stop travels no further than coasting for the initial delay and half a period and then braking at
   * the mean deceleration of a full and an eased period.
   */
  lemma SmoothTravelBound(p: StopRequest)
    requires p.JerkLimited()
    ensures Smooth.Terminal(p).distance <= StoppingGround(p.Entry(), StartDelay(p) + p.dt / 2.0, MeanDecel(p))
  {
    SmoothClaimFits(p, MeanDecel(p), p.dt / 2.0, Smooth.Steps(p));
    Smooth.MovingIffBeforeEnd(p, Smooth.Steps(p));
    AtRest(p.dt / 2.0, MeanDecel(p));
  }

  lemma AtRest(h: real, k: real)
    requires 0.0 < k
    ensures StoppingGround(0.0, h, k) == 0.0
  {
  }
}
