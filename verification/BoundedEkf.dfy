/** `BoundedEkfFilter`: a position and velocity estimator whose state and covariance are clamped. */
module BoundedEkf {
  import opened Numeric

  datatype Params = Params(
    processNoisePosition: real,
    processNoiseVelocity: real,
    measurementNoise: real,
    maxAbsPosition: real,
    maxAbsVelocity: real,
    minVariance: real,
    maxVariance: real,
    gateSigma: real)
  {
    /** The range checks of `set_params`. */
    predicate Acceptable() {
      && 0.0 <= minVariance <= maxVariance
      && 0.0 <= maxAbsPosition && 0.0 <= maxAbsVelocity && 0.0 <= gateSigma
    }

    function MeasurementVariance(): real {
      Max(measurementNoise, minVariance)
    }
  }

  const DEFAULTS := Params(0.001, 0.01, 0.01, 1000.0, 100.0, 0.000000001, 1000000.0, 5.0)

  datatype Covariance = Covariance(p00: real, p01: real, p10: real, p11: real)
  {
    predicate Symmetric() {
      p01 == p10
    }

    function Determinant(): real {
      p00 * p11 - p01 * p10
    }

    /** Positive semidefinite, for a symmetric matrix. */
    predicate Semidefinite() {
      Symmetric() && 0.0 <= p00 && 0.0 <= p11 && 0.0 <= Determinant()
    }

    predicate InBox(params: Params) {
      && params.minVariance <= p00 <= params.maxVariance
      && params.minVariance <= p11 <= params.maxVariance
      && Abs(p01) <= params.maxVariance && Abs(p10) <= params.maxVariance
    }
  }

  datatype Estimate = Estimate(x: real, v: real, p: Covariance)
  {
    predicate InBox(params: Params) {
      Abs(x) <= params.maxAbsPosition && Abs(v) <= params.maxAbsVelocity && p.InBox(params)
    }
  }

  const IDENTITY := Covariance(1.0, 0.0, 0.0, 1.0)

  // ----- one step of the filter

  function ClampSymmetric(value: real, limit: real): real {
    Clamp(value, -Max(0.0, limit), Max(0.0, limit))
  }

  function ClampCovariance(params: Params, p: Covariance): Covariance {
    var lo := Max(params.minVariance, 0.0);
    var hi := Max(params.maxVariance, lo);
    Covariance(Clamp(p.p00, lo, hi), Clamp(p.p01, -hi, hi), Clamp(p.p10, -hi, hi), Clamp(p.p11, lo, hi))
  }

  function Bound(params: Params, e: Estimate): Estimate {
    Estimate(
      ClampSymmetric(e.x, params.maxAbsPosition),
      ClampSymmetric(e.v, params.maxAbsVelocity),
      ClampCovariance(params, e.p))
  }

  /** The quadratic form `a + t·cross + t²·d`: the position variance `t` seconds on. */
  function Form(a: real, cross: real, d: real, t: real): real {
    a + t * cross + t * t * d
  }

  /** The predicted covariance before it is clamped. */
  function Propagate(p: Covariance, dt: real, q0: real, q1: real): Covariance {
    Covariance(
      Form(p.p00, p.p10 + p.p01, p.p11, dt) + q0,
      p.p01 + dt * p.p11,
      p.p10 + dt * p.p11,
      p.p11 + q1)
  }

  function PropagateWith(params: Params, p: Covariance, dt: real): Covariance {
    Propagate(p, dt,
      Max(params.processNoisePosition, params.minVariance),
      Max(params.processNoiseVelocity, params.minVariance))
  }

  /** The prediction before it is clamped. */
  function Extrapolate(params: Params, e: Estimate, accel: real, dt: real): Estimate {
    Estimate(
      e.x + (e.v * dt + 0.5 * accel * dt * dt),
      e.v + accel * dt,
      PropagateWith(params, e.p, dt))
  }

  function Predict(params: Params, e: Estimate, accel: real, dt: real): Estimate {
    Bound(params, Extrapolate(params, e, accel, dt))
  }

  /** The covariance after a measurement of variance `s - p00`, before it is clamped. */
  function Shrink(p: Covariance, s: real): Covariance
    requires s != 0.0
  {
    var k0, k1 := p.p00 / s, p.p10 / s;
    Covariance((1.0 - k0) * p.p00, (1.0 - k0) * p.p01, p.p10 - k1 * p.p00, p.p11 - k1 * p.p01)
  }

  /** The correction before it is clamped. */
  function Blend(e: Estimate, z: real, s: real): Estimate
    requires s != 0.0
  {
    Estimate(
      e.x + e.p.p00 / s * (z - e.x),
      e.v + e.p.p10 / s * (z - e.x),
      Shrink(e.p, s))
  }

  function Correct(params: Params, e: Estimate, z: real, s: real): Estimate
    requires s != 0.0
  {
    Bound(params, Blend(e, z, s))
  }

  predicate GateOpen(params: Params, innovation: real, s: real)
    requires s != 0.0
  {
    params.gateSigma <= 0.0 || (innovation * innovation) / s <= params.gateSigma * params.gateSigma
  }

  datatype Outcome = Corrected | Gated | Singular

  /** What a measurement does to the prediction `e`. */
  function Judge(params: Params, e: Estimate, z: real): (o: Outcome)
    ensures o != Singular && params.Acceptable() ==> 0.0 < e.p.p00 + params.MeasurementVariance()
  {
    var s := e.p.p00 + params.MeasurementVariance();
    if s <= params.minVariance then Singular
    else if s != 0.0 && !GateOpen(params, z - e.x, s) then Gated
    else Corrected
  }

  function Absorb(params: Params, e: Estimate, z: real): Estimate {
    var s := e.p.p00 + params.MeasurementVariance();
    if Judge(params, e, z) == Corrected && s != 0.0 then Correct(params, e, z, s) else e
  }

  // ----- the boxes

  lemma BoundFits(params: Params, e: Estimate)
    requires params.Acceptable()
    ensures Bound(params, e).InBox(params)
  {
  }

  // ----- the covariance stays symmetric and semidefinite

  lemma ShrinkSymmetric(p: Covariance, s: real)
    requires p.Symmetric() && s != 0.0
    ensures Shrink(p, s).Symmetric()
  {
    assert p.p10 / s * p.p00 == p.p00 / s * p.p01;
  }

  lemma SymmetricDeterminant(p: Covariance)
    requires p.Symmetric()
    ensures p.Determinant() == p.p00 * p.p11 - p.p01 * p.p01
  {
    ProductNegated(p.p10, -p.p01, p.p01);
  }

  /** The quadratic form of a semidefinite matrix is non-negative. */
  lemma FormSign(a: real, b: real, d: real, t: real)
    requires 0.0 <= a && 0.0 <= d && b * b <= a * d
    ensures 0.0 <= Form(a, b + b, d, t)
  {
    if d == 0.0 {
      assert a * d == 0.0;
      SquareZero(b);
    } else {
      var form, c := Form(a, b + b, d, t), b + t * d;
      SquareSign(c);
      FormTimesCorner(a, b, d, t);
      assert d * form == c * c + (a * d - b * b);
      FactorSign(d, form);
    }
  }

  lemma FormTimesCorner(a: real, b: real, d: real, t: real)
    ensures var c := b + t * d; Form(a, b + b, d, t) * d - c * c == a * d - b * b
  {
  }

  lemma NoiseAdded(form: real, c: real, d: real, q0: real, q1: real)
    ensures Covariance(form + q0, c, c, d + q1).Determinant() == (form * d - c * c) + (q1 * form + q0 * (d + q1))
  {
  }

  lemma NoiseRaises(form: real, c: real, d: real, q0: real, q1: real, least: real)
    requires 0.0 <= form && 0.0 <= d && 0.0 <= q0 && 0.0 <= q1 && 0.0 <= least
    requires form * d - c * c == least
    ensures var k := Covariance(form + q0, c, c, d + q1); k.Semidefinite() && least <= k.Determinant()
  {
    NoiseAdded(form, c, d, q0, q1);
    ProductSign(q1, form);
    ProductSign(q0, d + q1);
  }

  /** Prediction, over any period, never lowers the determinant. */
  lemma PropagateSemidefinite(p: Covariance, dt: real, q0: real, q1: real)
    requires p.Semidefinite() && 0.0 <= q0 && 0.0 <= q1
    ensures Propagate(p, dt, q0, q1).Semidefinite()
    ensures p.Determinant() <= Propagate(p, dt, q0, q1).Determinant()
  {
    var a, b, d := p.p00, p.p01, p.p11;
    SymmetricDeterminant(p);
    FormSign(a, b, d, dt);
    FormTimesCorner(a, b, d, dt);
    NoiseRaises(Form(a, b + b, d, dt), b + dt * d, d, q0, q1, p.Determinant());
    assert Propagate(p, dt, q0, q1) == Covariance(Form(a, b + b, d, dt) + q0, b + dt * d, b + dt * d, d + q1);
  }

  lemma ShrinkDeterminant(p: Covariance, s: real)
    requires p.Symmetric() && s != 0.0
    ensures Shrink(p, s).Determinant() == (1.0 - p.p00 / s) * p.Determinant()
  {
    var a, b, d, k := p.p00, p.p01, p.p11, p.p00 / s;
    ShrinkSymmetric(p, s);
    assert b / s * a == k * b;
    assert b / s * b * a == k * (b * b);
    assert (1.0 - k) * a * (d - b / s * b) == (1.0 - k) * (a * d - k * (b * b));
    assert (1.0 - k) * b * ((1.0 - k) * b) == (1.0 - k) * ((b * b) - k * (b * b));
  }

  lemma ShrinkDiagonal(p: Covariance, r: real)
    requires p.Semidefinite() && 0.0 <= r && 0.0 < p.p00 + r
    ensures var k := Shrink(p, p.p00 + r);
            0.0 <= k.p00 <= Min(p.p00, r) && 0.0 <= k.p11 <= p.p11
  {
    GainRange(p.p00, r);
    CornerRange(p.p00, p.p01, p.p10, p.p11, r);
  }

  lemma ShrinkScalesDeterminant(p: Covariance, r: real)
    requires p.Semidefinite() && 0.0 <= r && 0.0 < p.p00 + r
    ensures Shrink(p, p.p00 + r).Determinant() == r / (p.p00 + r) * p.Determinant()
    ensures 0.0 <= r / (p.p00 + r) <= 1.0
  {
    ShrinkDeterminant(p, p.p00 + r);
    GainRange(p.p00, r);
  }

  /** A correction multiplies the determinant by `r / s` and raises no variance. */
  lemma ShrinkSemidefinite(p: Covariance, r: real)
    requires p.Semidefinite() && 0.0 <= r && 0.0 < p.p00 + r
    ensures var k := Shrink(p, p.p00 + r);
            && k.Semidefinite()
            && k.Determinant() == r / (p.p00 + r) * p.Determinant()
            && k.p00 <= Min(p.p00, r) && k.p11 <= p.p11
  {
    ShrinkSymmetric(p, p.p00 + r);
    ShrinkDiagonal(p, r);
    ShrinkScalesDeterminant(p, r);
    ProductSign(r / (p.p00 + r), p.Determinant());
  }

  lemma GainRange(a: real, r: real)
    requires 0.0 <= a && 0.0 <= r && 0.0 < a + r
    ensures 0.0 <= a / (a + r) <= 1.0 && 1.0 - a / (a + r) == r / (a + r)
    ensures 0.0 <= (1.0 - a / (a + r)) * a <= Min(a, r)
  {
    var s := a + r;
    QuotientSign(a, s);
    QuotientSign(r, s);
    assert a / s + r / s == 1.0;
    ProductSign(r / s, a);
    ProductSign(a / s, a);
    ProductSign(r / s, r);
    assert r / s * a == a / s * r;
    assert a - r / s * a == a / s * a;
    assert r - a / s * r == r / s * r;
  }

  lemma CornerRange(a: real, b: real, c: real, d: real, r: real)
    requires 0.0 <= a && 0.0 <= d && b == c && b * b <= a * d && 0.0 <= r && 0.0 < a + r
    ensures 0.0 <= d - c / (a + r) * b <= d
  {
    var s := a + r;
    ProductSign(d, r);
    SquareSign(b);
    QuotientSign(b * b, s);
    QuotientMonotone(b * b, d * s, s);
    assert (d * s) / s == d;
    assert b / s * b == (b * b) / s;
  }

  // ----- what clamping does to semidefiniteness

  predicate Cut(params: Params, variance: real) {
    variance > params.maxVariance
  }

  /** A cross term, itself cut at `top`, that fits variances `top` and `d`. */
  predicate CrossFits(b: real, top: real, d: real) {
    Min(b * b, top * top) <= top * d
  }

  /** The condition under which clamping a semidefinite matrix leaves it semidefinite. */
  predicate ClampHarmless(params: Params, p: Covariance) {
    var top := params.maxVariance;
    Cut(params, p.p00) == Cut(params, p.p11) ||
    CrossFits(p.p01, top, Max(params.minVariance, if Cut(params, p.p00) then p.p11 else p.p00))
  }

  lemma ClampedSquare(b: real, top: real)
    requires 0.0 <= top
    ensures Clamp(b, -top, top) * Clamp(b, -top, top) == Min(b * b, top * top)
  {
    if Abs(b) <= top {
      ProductSign(top - Abs(b), top + Abs(b));
      assert Abs(b) * Abs(b) == b * b;
    } else {
      ProductSign(Abs(b) - top, top + Abs(b));
      assert Abs(b) * Abs(b) == b * b;
    }
  }

  lemma ProductOrder(a: real, b: real, a': real, b': real)
    requires 0.0 <= a <= a' && 0.0 <= b <= b'
    ensures a * b <= a' * b'
  {
    ProductSign(a' - a, b);
    ProductSign(a', b' - b);
  }

  lemma SemidefiniteIff(a: real, c: real, d: real)
    requires 0.0 <= a && 0.0 <= d
    ensures Covariance(a, c, c, d).Semidefinite() <==> c * c <= a * d
  {
  }

  lemma UncutClampKeeps(lo: real, top: real, a: real, c: real, d: real)
    requires 0.0 <= lo <= top && 0.0 <= a <= top && 0.0 <= d <= top && c * c <= a * d
    ensures Clamp(c, -top, top) * Clamp(c, -top, top) <= Clamp(a, lo, top) * Clamp(d, lo, top)
  {
    calc {
      Clamp(c, -top, top) * Clamp(c, -top, top);
    <= { ClampedSquare(c, top); }
      c * c;
    <=
      a * d;
    <= { ProductOrder(a, d, Clamp(a, lo, top), Clamp(d, lo, top)); }
      Clamp(a, lo, top) * Clamp(d, lo, top);
    }
  }

  lemma ClampedEntries(params: Params, p: Covariance)
    requires params.Acceptable() && p.Symmetric()
    ensures var lo, top := params.minVariance, params.maxVariance;
            var c := Clamp(p.p01, -top, top);
            ClampCovariance(params, p) == Covariance(Clamp(p.p00, lo, top), c, c, Clamp(p.p11, lo, top))
  {
  }

  lemma OneCutIff(top: real, b: real, d: real)
    requires 0.0 <= top && 0.0 <= d
    ensures var c := Clamp(b, -top, top);
            && (Covariance(top, c, c, d).Semidefinite() <==> CrossFits(b, top, d))
            && (Covariance(d, c, c, top).Semidefinite() <==> CrossFits(b, top, d))
  {
    ClampedSquare(b, top);
    SemidefiniteIff(top, Clamp(b, -top, top), d);
    SemidefiniteIff(d, Clamp(b, -top, top), top);
  }

  lemma CutFirstIff(params: Params, p: Covariance)
    requires params.Acceptable() && p.Symmetric() && Cut(params, p.p00) && !Cut(params, p.p11)
    ensures ClampCovariance(params, p).Semidefinite() <==> ClampHarmless(params, p)
  {
    var top, d := params.maxVariance, Max(params.minVariance, p.p11);
    var c := Clamp(p.p01, -top, top);
    OneCutIff(top, p.p01, d);
    ClampedEntries(params, p);
    assert ClampCovariance(params, p) == Covariance(top, c, c, d);
  }

  lemma CutSecondIff(params: Params, p: Covariance)
    requires params.Acceptable() && p.Symmetric() && !Cut(params, p.p00) && Cut(params, p.p11)
    ensures ClampCovariance(params, p).Semidefinite() <==> ClampHarmless(params, p)
  {
    var top, a := params.maxVariance, Max(params.minVariance, p.p00);
    var c := Clamp(p.p01, -top, top);
    OneCutIff(top, p.p01, a);
    ClampedEntries(params, p);
    assert ClampCovariance(params, p) == Covariance(a, c, c, top);
  }

  lemma CutBoth(params: Params, p: Covariance)
    requires params.Acceptable() && p.Symmetric() && Cut(params, p.p00) && Cut(params, p.p11)
    ensures ClampCovariance(params, p).Semidefinite()
  {
    var top := params.maxVariance;
    var c := Clamp(p.p01, -top, top);
    ClampedSquare(p.p01, top);
    SemidefiniteIff(top, c, top);
    ClampedEntries(params, p);
    assert ClampCovariance(params, p) == Covariance(top, c, c, top);
  }

  lemma CutNeither(params: Params, p: Covariance)
    requires params.Acceptable() && p.Semidefinite() && !Cut(params, p.p00) && !Cut(params, p.p11)
    ensures ClampCovariance(params, p).Semidefinite()
  {
    var lo, top := params.minVariance, params.maxVariance;
    SymmetricDeterminant(p);
    UncutClampKeeps(lo, top, p.p00, p.p01, p.p11);
    SemidefiniteIff(Clamp(p.p00, lo, top), Clamp(p.p01, -top, top), Clamp(p.p11, lo, top));
    ClampedEntries(params, p);
  }

  /** Cutting both variances, or neither, is harmless; cutting one is harmless exactly when the cross term allows it. */
  lemma ClampSemidefiniteIff(params: Params, p: Covariance)
    requires params.Acceptable() && p.Semidefinite()
    ensures ClampCovariance(params, p).Semidefinite() <==> ClampHarmless(params, p)
  {
    if Cut(params, p.p00) && Cut(params, p.p11) {
      CutBoth(params, p);
    } else if Cut(params, p.p00) {
      CutFirstIff(params, p);
    } else if Cut(params, p.p11) {
      CutSecondIff(params, p);
    } else {
      CutNeither(params, p);
    }
  }

  /** A correction never needs the upper clamp, so it always keeps the covariance semidefinite. */
  lemma CorrectSemidefinite(params: Params, e: Estimate, z: real)
    requires params.Acceptable() && e.InBox(params) && e.p.Semidefinite()
    ensures Absorb(params, e, z).p.Semidefinite()
  {
    if Judge(params, e, z) == Corrected {
      var r := params.MeasurementVariance();
      ShrinkSemidefinite(e.p, r);
      ClampSemidefiniteIff(params, Shrink(e.p, e.p.p00 + r));
    }
  }

  // ----- what a measurement does to the estimate

  /** The innovation exceeds `gateSigma` standard deviations of its predicted spread. */
  predicate Outlier(params: Params, innovation: real, s: real) {
    0.0 < params.gateSigma && params.gateSigma * params.gateSigma * s < innovation * innovation
  }

  /**
   * A prediction is left uncorrected exactly when the measurement is an outlier or nothing at all is uncertain: that
   * takes a zero floor, a zero position variance and no measurement noise.
   */
  lemma UncorrectedIff(params: Params, e: Estimate, z: real)
    requires params.Acceptable() && e.InBox(params)
    ensures Judge(params, e, z) == Singular <==>
              params.minVariance == 0.0 && e.p.p00 == 0.0 && params.measurementNoise <= 0.0
    ensures Judge(params, e, z) == Gated <==>
              Judge(params, e, z) != Singular && Outlier(params, z - e.x, e.p.p00 + params.MeasurementVariance())
    ensures Judge(params, e, z) != Corrected ==> Absorb(params, e, z) == e
  {
    var s := e.p.p00 + params.MeasurementVariance();
    if 0.0 < s {
      GateIff(params, z - e.x, s);
    }
  }

  lemma GateIff(params: Params, innovation: real, s: real)
    requires params.Acceptable() && 0.0 < s
    ensures GateOpen(params, innovation, s) <==> !Outlier(params, innovation, s)
  {
    QuotientOrder(innovation * innovation, s, params.gateSigma * params.gateSigma);
  }

  lemma Interpolates(x: real, z: real, k: real)
    requires 0.0 <= k <= 1.0
    ensures Min(x, z) <= x + k * (z - x) <= Max(x, z)
  {
    if x <= z {
      ProductSign(k, z - x);
      ProductSign(1.0 - k, z - x);
    } else {
      ProductSign(k, x - z);
      ProductSign(1.0 - k, x - z);
    }
  }

  /**
   * An accepted measurement moves the position towards itself and no further, before and after the clamp, and
   * leaves a position variance no larger than the predicted one and than the measurement's own.
   */
  lemma MeasurementPulls(params: Params, e: Estimate, z: real)
    requires params.Acceptable() && e.InBox(params) && Judge(params, e, z) == Corrected
    ensures Between(e.x, z, Blend(e, z, e.p.p00 + params.MeasurementVariance()).x)
    ensures Between(e.x, z, Absorb(params, e, z).x)
    ensures Absorb(params, e, z).p.p00 <= Min(e.p.p00, params.MeasurementVariance())
  {
    var r := params.MeasurementVariance();
    BlendPulls(e, z, r);
    ClampStaysBetween(e.x, z, Blend(e, z, e.p.p00 + r).x, params.maxAbsPosition);
    CorrectedVariance(params, e, z, r);
  }

  predicate Between(a: real, b: real, c: real) {
    Min(a, b) <= c <= Max(a, b)
  }

  lemma BlendPulls(e: Estimate, z: real, r: real)
    requires 0.0 <= e.p.p00 && 0.0 <= r && 0.0 < e.p.p00 + r
    ensures Between(e.x, z, Blend(e, z, e.p.p00 + r).x)
  {
    GainRange(e.p.p00, r);
    Interpolates(e.x, z, e.p.p00 / (e.p.p00 + r));
  }

  lemma ClampStaysBetween(x: real, z: real, y: real, limit: real)
    requires Abs(x) <= limit && Between(x, z, y)
    ensures Between(x, z, ClampSymmetric(y, limit))
  {
  }

  lemma CorrectedVariance(params: Params, e: Estimate, z: real, r: real)
    requires params.Acceptable() && params.minVariance <= Min(e.p.p00, r) && 0.0 < e.p.p00 + r
    ensures Correct(params, e, z, e.p.p00 + r).p.p00 <= Min(e.p.p00, r)
  {
    var k := Blend(e, z, e.p.p00 + r).p;
    assert k.p00 <= Min(e.p.p00, r) by { GainRange(e.p.p00, r); }
    ClampBelow(k.p00, Min(e.p.p00, r), params.minVariance, params.maxVariance);
  }

  lemma ClampBelow(value: real, limit: real, lo: real, hi: real)
    requires value <= limit && lo <= limit && lo <= hi
    ensures Clamp(value, lo, hi) <= limit
  {
  }

  // ----- the filter as a whole

  const STALE_MULTIPLIER := 10.0

  /** `config_` is only read for its control period, in nanoseconds. */
  datatype Filter = Filter(
    params: Params,
    controlPeriod: Option<int>,
    e: Estimate,
    healthy: bool,
    lastStamp: u64,
    rejected: u64)
  {
    function PeriodSeconds(): real {
      if controlPeriod.Some? && controlPeriod.value > 0 then controlPeriod.value as real / 1000000000.0 else 0.1
    }

    predicate Bounded() {
      params.Acceptable() && e.InBox(params)
    }
  }

  function Initial(): Filter {
    Filter(DEFAULTS, None, Estimate(0.0, 0.0, IDENTITY), true, 0, 0)
  }

  function Measured(f: Filter, z: real, accel: real, dt: real): Filter {
    var e := Predict(f.params, f.e, accel, dt);
    match Judge(f.params, e, z)
    case Singular => f.(e := e, healthy := false)
    case Gated => f.(e := e, rejected := (f.rejected + 1) % U64)
    case Corrected => f.(e := Absorb(f.params, e, z), healthy := true)
  }

  /** The period a stamped measurement is taken to end. */
  function StampedPeriod(f: Filter, stamp: u64): real {
    if f.lastStamp > 0 && stamp > f.lastStamp then (stamp - f.lastStamp) as real * 0.000000001 else f.PeriodSeconds()
  }

  datatype Input =
    | SetParams(params: Params)
    | Reset(position: real, velocity: real)
    | Measure(z: real, accel: real)
    | MeasureAt(z: real, accel: real, stamp: u64)

  function Apply(f: Filter, input: Input): Filter {
    match input
    case SetParams(params) =>
      if params.Acceptable() then f.(params := params, e := Bound(params, f.e)) else f
    case Reset(position, velocity) =>
      f.(e := Bound(f.params, Estimate(position, velocity, IDENTITY)),
         healthy := true, lastStamp := 0, rejected := 0)
    case Measure(z, accel) => Measured(f, z, accel, f.PeriodSeconds())
    case MeasureAt(z, accel, stamp) =>
      var dt := StampedPeriod(f, stamp);
      var g := f.(lastStamp := stamp);
      if dt > f.PeriodSeconds() * STALE_MULTIPLIER then g else Measured(g, z, accel, dt)
  }

  function ApplyAll(f: Filter, inputs: seq<Input>): Filter
    decreases |inputs|
  {
    if inputs == [] then f else ApplyAll(Apply(f, inputs[0]), inputs[1..])
  }

  /** No clamp of this step cuts one variance alone against a cross term that is too large. */
  predicate Harmless(f: Filter, input: Input) {
    match input
    case SetParams(params) => params.Acceptable() ==> ClampHarmless(params, f.e.p)
    case Reset(_, _) => true
    case Measure(_, _) => ClampHarmless(f.params, PropagateWith(f.params, f.e.p, f.PeriodSeconds()))
    case MeasureAt(_, _, stamp) =>
      StampedPeriod(f, stamp) <= f.PeriodSeconds() * STALE_MULTIPLIER ==>
        ClampHarmless(f.params, PropagateWith(f.params, f.e.p, StampedPeriod(f, stamp)))
  }

  predicate AllHarmless(f: Filter, inputs: seq<Input>)
    decreases |inputs|
  {
    inputs == [] || (Harmless(f, inputs[0]) && AllHarmless(Apply(f, inputs[0]), inputs[1..]))
  }

  // ----- whole runs

  lemma ApplyBounded(f: Filter, input: Input)
    requires f.Bounded()
    ensures Apply(f, input).Bounded()
  {
    match input
    case SetParams(params) => if params.Acceptable() { BoundFits(params, f.e); }
    case Reset(x, v) => BoundFits(f.params, Estimate(x, v, IDENTITY));
    case Measure(z, accel) => MeasuredBounded(f, z, accel, f.PeriodSeconds());
    case MeasureAt(z, accel, stamp) => MeasuredBounded(f.(lastStamp := stamp), z, accel, StampedPeriod(f, stamp));
  }

  lemma PredictBounded(params: Params, e: Estimate, accel: real, dt: real)
    requires params.Acceptable()
    ensures Predict(params, e, accel, dt).InBox(params)
  {
    BoundFits(params, Extrapolate(params, e, accel, dt));
  }

  lemma AbsorbBounded(params: Params, e: Estimate, z: real)
    requires params.Acceptable() && e.InBox(params)
    ensures Absorb(params, e, z).InBox(params)
  {
    var s := e.p.p00 + params.MeasurementVariance();
    if Judge(params, e, z) == Corrected {
      BoundFits(params, Blend(e, z, s));
    }
  }

  lemma MeasuredBounded(f: Filter, z: real, accel: real, dt: real)
    requires f.Bounded()
    ensures Measured(f, z, accel, dt).Bounded()
  {
    PredictBounded(f.params, f.e, accel, dt);
    AbsorbBounded(f.params, Predict(f.params, f.e, accel, dt), z);
  }

  lemma ApplySymmetric(f: Filter, input: Input)
    requires f.Bounded() && f.e.p.Symmetric()
    ensures Apply(f, input).e.p.Symmetric()
  {
    var dt := if input.MeasureAt? then StampedPeriod(f, input.stamp) else f.PeriodSeconds();
    if input.Measure? || input.MeasureAt? {
      var e := Predict(f.params, f.e, input.accel, dt);
      assert e.p.Symmetric();
      PredictBounded(f.params, f.e, input.accel, dt);
      if Judge(f.params, e, input.z) == Corrected {
        ShrinkSymmetric(e.p, e.p.p00 + f.params.MeasurementVariance());
      }
    }
  }

  /** Whatever is fed to it, a filter keeps every entry in its box and its covariance symmetric. */
  lemma {:induction false} RunBounded(f: Filter, inputs: seq<Input>)
    requires f.Bounded() && f.e.p.Symmetric()
    ensures ApplyAll(f, inputs).Bounded() && ApplyAll(f, inputs).e.p.Symmetric()
    decreases |inputs|
  {
    if inputs != [] {
      ApplyBounded(f, inputs[0]);
      ApplySymmetric(f, inputs[0]);
      RunBounded(Apply(f, inputs[0]), inputs[1..]);
    }
  }

  /** Prediction keeps the covariance semidefinite exactly when its clamp is harmless. */
  lemma PredictSemidefiniteIff(params: Params, e: Estimate, accel: real, dt: real)
    requires params.Acceptable() && e.p.Semidefinite()
    ensures Predict(params, e, accel, dt).p.Semidefinite() <==>
            ClampHarmless(params, PropagateWith(params, e.p, dt))
  {
    PropagateSemidefinite(e.p, dt,
      Max(params.processNoisePosition, params.minVariance), Max(params.processNoiseVelocity, params.minVariance));
    ClampSemidefiniteIff(params, PropagateWith(params, e.p, dt));
  }

  lemma MeasuredSemidefinite(f: Filter, z: real, accel: real, dt: real)
    requires f.Bounded() && f.e.p.Semidefinite()
    requires ClampHarmless(f.params, PropagateWith(f.params, f.e.p, dt))
    ensures Measured(f, z, accel, dt).e.p.Semidefinite()
  {
    PredictSemidefiniteIff(f.params, f.e, accel, dt);
    PredictBounded(f.params, f.e, accel, dt);
    CorrectSemidefinite(f.params, Predict(f.params, f.e, accel, dt), z);
  }

  lemma SameCutHarmless(params: Params, p: Covariance)
    requires Cut(params, p.p00) == Cut(params, p.p11)
    ensures ClampHarmless(params, p)
  {
  }

  lemma IdentitySemidefinite()
    ensures IDENTITY.Semidefinite()
  {
  }

  lemma IdentityHarmless(params: Params)
    ensures IDENTITY.Semidefinite() && ClampHarmless(params, IDENTITY)
  {
    IdentitySemidefinite();
    SameCutHarmless(params, IDENTITY);
  }

  lemma ApplySemidefinite(f: Filter, input: Input)
    requires f.Bounded() && f.e.p.Semidefinite() && Harmless(f, input)
    ensures Apply(f, input).e.p.Semidefinite()
  {
    match input
    case SetParams(params) => if params.Acceptable() { ClampSemidefiniteIff(params, f.e.p); }
    case Reset(_, _) =>
      IdentityHarmless(f.params);
      ClampSemidefiniteIff(f.params, IDENTITY);
    case Measure(z, accel) => MeasuredSemidefinite(f, z, accel, f.PeriodSeconds());
    case MeasureAt(z, accel, stamp) =>
      if StampedPeriod(f, stamp) <= f.PeriodSeconds() * STALE_MULTIPLIER {
        MeasuredSemidefinite(f.(lastStamp := stamp), z, accel, StampedPeriod(f, stamp));
      }
  }

  /** Over a run without a harmful cut the covariance stays positive semidefinite. */
  lemma {:induction false} RunSemidefinite(f: Filter, inputs: seq<Input>)
    requires f.Bounded() && f.e.p.Semidefinite() && AllHarmless(f, inputs)
    ensures ApplyAll(f, inputs).e.p.Semidefinite()
    decreases |inputs|
  {
    if inputs != [] {
      ApplyBounded(f, inputs[0]);
      ApplySemidefinite(f, inputs[0]);
      RunSemidefinite(Apply(f, inputs[0]), inputs[1..]);
    }
  }

  /** The covariance as the first clamp of a step leaves it: of new parameters, of a reset or of a prediction. */
  function FirstClamped(f: Filter, input: Input): Covariance {
    match input
    case SetParams(_) => Apply(f, input).e.p
    case Reset(_, _) => Apply(f, input).e.p
    case Measure(_, accel) => Predict(f.params, f.e, accel, f.PeriodSeconds()).p
    case MeasureAt(_, accel, stamp) =>
      var dt := StampedPeriod(f, stamp);
      if dt > f.PeriodSeconds() * STALE_MULTIPLIER then f.e.p else Predict(f.params, f.e, accel, dt).p
  }

  lemma FirstClampedIff(f: Filter, input: Input)
    requires f.Bounded() && f.e.p.Semidefinite()
    ensures FirstClamped(f, input).Semidefinite() <==> Harmless(f, input)
  {
    match input
    case SetParams(params) => if params.Acceptable() { ClampSemidefiniteIff(params, f.e.p); }
    case Reset(_, _) =>
      IdentityHarmless(f.params);
      ClampSemidefiniteIff(f.params, IDENTITY);
    case Measure(_, accel) => PredictSemidefiniteIff(f.params, f.e, accel, f.PeriodSeconds());
    case MeasureAt(_, accel, stamp) =>
      if StampedPeriod(f, stamp) <= f.PeriodSeconds() * STALE_MULTIPLIER {
        PredictSemidefiniteIff(f.params, f.e, accel, StampedPeriod(f, stamp));
      }
  }

  /** Every clamp of the run leaves the covariance semidefinite, and so does every step as a whole. */
  predicate StaysSemidefinite(f: Filter, inputs: seq<Input>)
    decreases |inputs|
  {
    inputs == [] ||
    (FirstClamped(f, inputs[0]).Semidefinite() && Apply(f, inputs[0]).e.p.Semidefinite()
     && StaysSemidefinite(Apply(f, inputs[0]), inputs[1..]))
  }

  /** Over every run: the covariance stays positive semidefinite if and only if no clamp makes a harmful cut. */
  lemma {:induction false} RunSemidefiniteIff(f: Filter, inputs: seq<Input>)
    requires f.Bounded() && f.e.p.Semidefinite()
    ensures StaysSemidefinite(f, inputs) <==> AllHarmless(f, inputs)
    decreases |inputs|
  {
    if inputs != [] {
      FirstClampedIff(f, inputs[0]);
      if Harmless(f, inputs[0]) {
        ApplyBounded(f, inputs[0]);
        ApplySemidefinite(f, inputs[0]);
        RunSemidefiniteIff(Apply(f, inputs[0]), inputs[1..]);
      }
    }
  }

  /** A period over which a prediction from a fresh reset cuts the position variance alone. */
  predicate LongPeriod(params: Params, dt: real) {
    var q := Max(params.processNoiseVelocity, params.minVariance);
    && params.minVariance <= 1.0 && 1.0 + q <= params.maxVariance
    && 0.0 <= dt <= params.maxVariance
    && params.maxVariance * (1.0 + q) < dt * dt
  }

  lemma LongPredictionHarms(params: Params, x: real, v: real, accel: real, dt: real)
    requires params.Acceptable() && LongPeriod(params, dt)
    ensures !Predict(params, Estimate(x, v, IDENTITY), accel, dt).p.Semidefinite()
  {
    IdentityHarmless(params);
    PredictSemidefiniteIff(params, Estimate(x, v, IDENTITY), accel, dt);
    LongStepHarmful(params, dt);
  }

  /** Far enough from the prediction, and with gating on, a measurement is an outlier. */
  lemma FarMeasurementGated(params: Params, e: Estimate) returns (z: real)
    requires params.Acceptable() && 0.0 < params.gateSigma && e.InBox(params)
    requires 0.0 < e.p.p00 + params.MeasurementVariance()
    ensures Judge(params, e, z) == Gated
  {
    var s, g := e.p.p00 + params.MeasurementVariance(), params.gateSigma;
    var far := g * (s + 1.0);
    z := e.x + far;
    FarIsOutlier(params, far, s);
    assert z - e.x == far;
    UncorrectedIff(params, e, z);
  }

  lemma FarIsOutlier(params: Params, far: real, s: real)
    requires 0.0 < params.gateSigma && 0.0 < s && far == params.gateSigma * (s + 1.0)
    ensures Outlier(params, far, s)
  {
    var g := params.gateSigma;
    var more := s * s + s + 1.0;
    assert 0.0 < g * g && 0.0 < s * s;
    assert far * far == g * g * s + (g * g) * more;
    assert 0.0 < (g * g) * more;
  }

  lemma ResetToIdentity(f: Filter, x: real, v: real)
    requires f.params.Acceptable() && f.params.minVariance <= 1.0 <= f.params.maxVariance
    ensures Apply(f, Reset(x, v)).e.p == IDENTITY && Apply(f, Reset(x, v)).params == f.params
    ensures Apply(f, Reset(x, v)).PeriodSeconds() == f.PeriodSeconds()
  {
  }

  /**
   * The proviso is needed: with a long control period one gated measurement after a reset leaves a covariance that is
   * not positive semidefinite.
   */
  lemma LongPredictionLosesSemidefinite(f: Filter, x: real, v: real, accel: real) returns (z: real)
    requires f.Bounded() && 0.0 < f.params.gateSigma && LongPeriod(f.params, f.PeriodSeconds())
    ensures !Apply(Apply(f, Reset(x, v)), Measure(z, accel)).e.p.Semidefinite()
  {
    var g := Apply(f, Reset(x, v));
    var dt := f.PeriodSeconds();
    ApplyBounded(f, Reset(x, v));
    ResetToIdentity(f, x, v);
    var e := Predict(g.params, g.e, accel, dt);
    LongPredictionHarms(g.params, g.e.x, g.e.v, accel, dt);
    PredictBounded(g.params, g.e, accel, dt);
    LongPredictionCertain(g.params, g.e, accel, dt);
    z := FarMeasurementGated(g.params, e);
  }

  /** Such a prediction is not certain of its position. */
  lemma LongPredictionCertain(params: Params, e: Estimate, accel: real, dt: real)
    requires params.Acceptable() && e.p == IDENTITY && LongPeriod(params, dt)
    ensures 0.0 < Predict(params, e, accel, dt).p.p00 + params.MeasurementVariance()
  {
    PropagateIdentity(params, dt);
    SquareSign(dt);
    var k := PropagateWith(params, e.p, dt);
    assert 1.0 <= k.p00;
    assert 1.0 <= ClampCovariance(params, k).p00;
  }

  lemma LongStepHarmful(params: Params, dt: real)
    requires params.Acceptable() && LongPeriod(params, dt)
    ensures !ClampHarmless(params, PropagateWith(params, IDENTITY, dt))
  {
    var q0 := Max(params.processNoisePosition, params.minVariance);
    var q1 := Max(params.processNoiseVelocity, params.minVariance);
    PropagateIdentity(params, dt);
    PastTheTop(params.maxVariance, q0, q1, dt * dt);
    CutAlone(params, dt, 1.0 + dt * dt + q0, 1.0 + q1);
  }

  lemma PropagateIdentity(params: Params, dt: real)
    ensures PropagateWith(params, IDENTITY, dt)
         == Covariance(
              1.0 + dt * dt + Max(params.processNoisePosition, params.minVariance), dt, dt,
              1.0 + Max(params.processNoiseVelocity, params.minVariance))
  {
  }

  lemma PastTheTop(top: real, q0: real, q1: real, square: real)
    requires 0.0 <= q0 && 0.0 <= q1 && 0.0 <= top && top * (1.0 + q1) < square
    ensures top < 1.0 + square + q0
  {
    ProductSign(top, q1);
    assert top * (1.0 + q1) == top + top * q1;
  }

  lemma CutAlone(params: Params, c: real, a: real, d: real)
    requires params.Acceptable() && params.minVariance <= d <= params.maxVariance < a
    requires 0.0 <= c <= params.maxVariance && params.maxVariance * d < c * c
    ensures !ClampHarmless(params, Covariance(a, c, c, d))
  {
    ProductOrder(c, c, params.maxVariance, params.maxVariance);
  }

  // ----- what the operations compute

  /** Every entry of `b` is the one of `e` brought to the nearest value in its box. */
  predicate BroughtInto(params: Params, e: Estimate, b: Estimate) {
    && Nearest(e.x, -params.maxAbsPosition, params.maxAbsPosition, b.x)
    && Nearest(e.v, -params.maxAbsVelocity, params.maxAbsVelocity, b.v)
    && Nearest(e.p.p00, params.minVariance, params.maxVariance, b.p.p00)
    && Nearest(e.p.p11, params.minVariance, params.maxVariance, b.p.p11)
    && Nearest(e.p.p01, -params.maxVariance, params.maxVariance, b.p.p01)
    && Nearest(e.p.p10, -params.maxVariance, params.maxVariance, b.p.p10)
  }

  lemma BoundBringsInto(params: Params, e: Estimate)
    requires params.Acceptable()
    ensures BroughtInto(params, e, Bound(params, e))
  {
  }

  /** Where motion with constant acceleration `a` from `x0` and `v0` is after `t`. */
  function PositionAt(x0: real, v0: real, a: real, t: real): real {
    x0 + v0 * t + a * t * t / 2.0
  }

  function SpeedAt(v0: real, a: real, t: real): real {
    v0 + a * t
  }

  lemma MotionComposes(x0: real, v0: real, a: real, t: real, dt: real)
    ensures PositionAt(x0, v0, a, t) + (SpeedAt(v0, a, t) * dt + 0.5 * a * dt * dt) == PositionAt(x0, v0, a, t + dt)
    ensures SpeedAt(v0, a, t) + a * dt == SpeedAt(v0, a, t + dt)
  {
  }

  /** The estimate is on the motion at time `t`. */
  predicate OnMotion(e: Estimate, x0: real, v0: real, a: real, t: real) {
    e.x == PositionAt(x0, v0, a, t) && e.v == SpeedAt(v0, a, t)
  }

  /** Prediction is exact on motion with constant acceleration, but for the clamp. */
  lemma PredictFollowsMotion(params: Params, e: Estimate, x0: real, v0: real, a: real, t: real, dt: real)
    requires params.Acceptable() && OnMotion(e, x0, v0, a, t)
    ensures var k := Predict(params, e, a, dt);
            && Nearest(PositionAt(x0, v0, a, t + dt), -params.maxAbsPosition, params.maxAbsPosition, k.x)
            && Nearest(SpeedAt(v0, a, t + dt), -params.maxAbsVelocity, params.maxAbsVelocity, k.v)
  {
    MotionComposes(x0, v0, a, t, dt);
    ExtrapolatesMotion(params, e, x0, v0, a, t, dt);
    BoundBringsInto(params, Extrapolate(params, e, a, dt));
  }

  lemma ExtrapolatesMotion(params: Params, e: Estimate, x0: real, v0: real, a: real, t: real, dt: real)
    requires OnMotion(e, x0, v0, a, t)
    ensures OnMotion(Extrapolate(params, e, a, dt), x0, v0, a, t + dt)
  {
    MotionComposes(x0, v0, a, t, dt);
    ProductNegated(e.v, -SpeedAt(v0, a, t), dt);
  }

  /** The state after a measurement that was not accepted, or between prediction and measurement if it was. */
  predicate FollowsMotion(f: Filter, g: Filter, z: real, x: real, v: real) {
    if g.rejected != f.rejected || !g.healthy then
      && Nearest(x, -f.params.maxAbsPosition, f.params.maxAbsPosition, g.e.x)
      && Nearest(v, -f.params.maxAbsVelocity, f.params.maxAbsVelocity, g.e.v)
    else
      Between(Clamp(x, -f.params.maxAbsPosition, f.params.maxAbsPosition), z, g.e.x)
  }

  lemma MeasuredFollowsMotion(f: Filter, z: real, x0: real, v0: real, a: real, t: real, dt: real)
    requires f.Bounded() && OnMotion(f.e, x0, v0, a, t)
    ensures FollowsMotion(f, Measured(f, z, a, dt), z, PositionAt(x0, v0, a, t + dt), SpeedAt(v0, a, t + dt))
  {
    var e := Predict(f.params, f.e, a, dt);
    PredictFollowsMotion(f.params, f.e, x0, v0, a, t, dt);
    PredictBounded(f.params, f.e, a, dt);
    UncorrectedIff(f.params, e, z);
    if Judge(f.params, e, z) == Corrected {
      MeasurementPulls(f.params, e, z);
    }
  }

  /**
   * A filter that is on a motion with constant acceleration, and is told it, is on it after the next measurement as
   * well, but for the clamp, when that measurement is rejected; an accepted one pulls the position towards itself.
   */
  lemma UpdateFollowsMotion(f: Filter, z: real, x0: real, v0: real, a: real, t: real)
    requires f.Bounded() && OnMotion(f.e, x0, v0, a, t)
    ensures var dt := f.PeriodSeconds();
            FollowsMotion(f, Apply(f, Measure(z, a)), z, PositionAt(x0, v0, a, t + dt), SpeedAt(v0, a, t + dt))
  {
    MeasuredFollowsMotion(f, z, x0, v0, a, t, f.PeriodSeconds());
  }

  /** The nominal period is the control period in seconds, or a tenth of a second without a positive one. */
  lemma PeriodMeaning(f: Filter)
    ensures f.controlPeriod.Some? && 0 < f.controlPeriod.value ==>
              f.PeriodSeconds() * 1000000000.0 == f.controlPeriod.value as real
    ensures !(f.controlPeriod.Some? && 0 < f.controlPeriod.value) ==> f.PeriodSeconds() == 0.1
  {
  }

  /**
   * A stamped measurement covers the time since the last stamp, or one nominal period without an earlier stamp. One
   * that covers more than ten nominal periods only moves the stamp.
   */
  lemma StampedUpdateFollowsMotion(
    f: Filter, z: real, stamp: u64, x0: real, v0: real, a: real, t: real, dt: real)
    requires f.Bounded() && OnMotion(f.e, x0, v0, a, t)
    requires if 0 < f.lastStamp < stamp then dt * 1000000000.0 == (stamp - f.lastStamp) as real
             else dt == f.PeriodSeconds()
    ensures var g := Apply(f, MeasureAt(z, a, stamp));
            && g.lastStamp == stamp
            && (10.0 * f.PeriodSeconds() < dt ==> g == f.(lastStamp := stamp))
            && (dt <= 10.0 * f.PeriodSeconds() ==>
                  FollowsMotion(f, g, z, PositionAt(x0, v0, a, t + dt), SpeedAt(v0, a, t + dt)))
  {
    StampGap(f, stamp, dt);
    MeasuredFollowsMotion(f.(lastStamp := stamp), z, x0, v0, a, t, dt);
  }

  lemma StampGap(f: Filter, stamp: u64, dt: real)
    requires if 0 < f.lastStamp < stamp then dt * 1000000000.0 == (stamp - f.lastStamp) as real
             else dt == f.PeriodSeconds()
    ensures StampedPeriod(f, stamp) == dt
  {
  }

  // ----- covariance and gain

  /** The variance of `u` times the position plus `w` times the velocity. */
  function Variance(p: Covariance, u: real, w: real): real {
    p.p00 * u * u + (p.p01 + p.p10) * u * w + p.p11 * w * w
  }

  /** After a prediction over `dt`, `u·x + w·v` is as uncertain as `u·x + (u·dt + w)·v` was, plus the noise. */
  lemma PropagatedVariance(p: Covariance, dt: real, q0: real, q1: real, u: real, w: real)
    ensures Variance(Propagate(p, dt, q0, q1), u, w) == Variance(p, u, u * dt + w) + q0 * u * u + q1 * w * w
  {
  }

  lemma NoiseFloors(params: Params, p: Covariance, dt: real)
    ensures var q0 := if params.processNoisePosition < params.minVariance then params.minVariance
                      else params.processNoisePosition;
            var q1 := if params.processNoiseVelocity < params.minVariance then params.minVariance
                      else params.processNoiseVelocity;
            PropagateWith(params, p, dt) == Propagate(p, dt, q0, q1)
  {
  }

  /** `k` is `e` corrected by `z` with measurement variance `r`, in the equations of the Kalman gain. */
  predicate Corrects(e: Estimate, z: real, r: real, k: Estimate) {
    var s := e.p.p00 + r;
    && (k.x - e.x) * s == e.p.p00 * (z - e.x)
    && (k.v - e.v) * s == e.p.p10 * (z - e.x)
    && (k.v - e.v) * e.p.p00 == (k.x - e.x) * e.p.p10
    && k.p.p00 * s == e.p.p00 * r && k.p.p01 * s == e.p.p01 * r && k.p.p10 * s == e.p.p10 * r
    && (e.p.p11 - k.p.p11) * s == e.p.p10 * e.p.p01
  }

  lemma QuotientTimes(a: real, b: real, s: real)
    requires s != 0.0
    ensures a / s * b * s == a * b
  {
    assert a / s * s == a;
  }

  lemma BlendCorrects(e: Estimate, z: real, r: real)
    requires e.p.p00 + r != 0.0
    ensures Corrects(e, z, r, Blend(e, z, e.p.p00 + r))
  {
    var s, d := e.p.p00 + r, z - e.x;
    QuotientTimes(e.p.p00, d, s);
    QuotientTimes(e.p.p10, d, s);
    QuotientTimes(e.p.p00, e.p.p00, s);
    QuotientTimes(e.p.p00, e.p.p01, s);
    QuotientTimes(e.p.p10, e.p.p00, s);
    QuotientTimes(e.p.p10, e.p.p01, s);
    GainsAgree(e.p.p00, e.p.p10, d, s);
  }

  lemma GainsAgree(a: real, b: real, d: real, s: real)
    requires s != 0.0
    ensures b / s * d * a == a / s * d * b
  {
    assert b / s * a == a / s * b;
  }

  /** An accepted measurement applies the Kalman gain, and then the clamp. */
  lemma AcceptedCorrects(params: Params, e: Estimate, z: real) returns (k: Estimate)
    requires params.Acceptable() && Judge(params, e, z) == Corrected
    ensures var r := if params.measurementNoise < params.minVariance then params.minVariance
                     else params.measurementNoise;
            Corrects(e, z, r, k) && BroughtInto(params, k, Absorb(params, e, z))
  {
    var r := params.MeasurementVariance();
    k := Blend(e, z, e.p.p00 + r);
    BlendCorrects(e, z, r);
    BoundBringsInto(params, k);
  }

  // ----- parameters, reset and flags

  /** Parameters are adopted, and the estimate brought into their boxes, exactly when all ranges make sense. */
  lemma SetParamsDecides(f: Filter, params: Params)
    ensures var g := Apply(f, SetParams(params));
            if && 0.0 <= params.minVariance && params.minVariance <= params.maxVariance
               && 0.0 <= params.maxAbsPosition && 0.0 <= params.maxAbsVelocity && 0.0 <= params.gateSigma
            then g == f.(params := params, e := g.e) && BroughtInto(params, f.e, g.e)
            else g == f
  {
    if params.Acceptable() {
      BoundBringsInto(params, f.e);
    }
  }

  lemma ResetDecides(f: Filter, x: real, v: real)
    requires f.params.Acceptable()
    ensures var g := Apply(f, Reset(x, v));
            && g == f.(e := g.e, healthy := true, lastStamp := 0, rejected := 0)
            && BroughtInto(f.params, Estimate(x, v, Covariance(1.0, 0.0, 0.0, 1.0)), g.e)
  {
    BoundBringsInto(f.params, Estimate(x, v, IDENTITY));
  }

  /** Health and the count of rejected measurements: nothing uncertain, an outlier, or an accepted measurement. */
  lemma FlagsDecide(f: Filter, z: real, accel: real)
    requires f.Bounded()
    ensures var g := Apply(f, Measure(z, accel));
            var e := Predict(f.params, f.e, accel, f.PeriodSeconds());
            var r := Max(f.params.measurementNoise, f.params.minVariance);
            if f.params.minVariance == 0.0 && e.p.p00 == 0.0 && f.params.measurementNoise <= 0.0 then
              g == f.(e := e, healthy := false)
            else if Outlier(f.params, z - e.x, e.p.p00 + r) then
              g == f.(e := e, rejected := (f.rejected + 1) % U64)
            else
              g == f.(e := g.e, healthy := true)
  {
    var e := Predict(f.params, f.e, accel, f.PeriodSeconds());
    PredictBounded(f.params, f.e, accel, f.PeriodSeconds());
    UncorrectedIff(f.params, e, z);
  }

  // ----- the class

  class BoundedEkfFilter {
    var controlPeriod: Option<int>
    var params: Params
    var x: real
    var v: real
    var p00: real
    var p01: real
    var p10: real
    var p11: real
    var healthy: bool
    var lastStamp: u64
    var rejected: u64

    function CurrentEstimate(): Estimate
      reads this
    {
      Estimate(x, v, Covariance(p00, p01, p10, p11))
    }

    function View(): Filter
      reads this
    {
      Filter(params, controlPeriod, CurrentEstimate(), healthy, lastStamp, rejected)
    }

    ghost predicate Valid()
      reads this
    {
      View().Bounded()
    }

    constructor ()
      ensures Valid() && View() == Initial()
    {
      controlPeriod, params := None, DEFAULTS;
      x, v, p00, p01, p10, p11 := 0.0, 0.0, 1.0, 0.0, 0.0, 1.0;
      healthy, lastStamp, rejected := true, 0, 0;
    }

    method ApplyConfig(period: int)
      modifies this`controlPeriod
      ensures View() == old(View()).(controlPeriod := Some(period))
    {
      controlPeriod := Some(period);
    }

    method ClampState()
      modifies this`x, this`v, this`p00, this`p01, this`p10, this`p11
      ensures CurrentEstimate() == Bound(params, old(CurrentEstimate()))
    {
      x := ClampSymmetric(x, params.maxAbsPosition);
      v := ClampSymmetric(v, params.maxAbsVelocity);
      var minV := Max(params.minVariance, 0.0);
      var maxV := Max(params.maxVariance, minV);
      p00 := Clamp(p00, minV, maxV);
      p11 := Clamp(p11, minV, maxV);
      p01 := Clamp(p01, -maxV, maxV);
      p10 := Clamp(p10, -maxV, maxV);
    }

    /** Unacceptable parameters are ignored. */
    method SetParameters(newParams: Params)
      requires Valid()
      modifies this
      ensures Valid() && View() == Apply(old(View()), SetParams(newParams))
    {
      ApplyBounded(View(), SetParams(newParams));
      if newParams.minVariance < 0.0 || newParams.maxVariance < newParams.minVariance
        || newParams.maxAbsPosition < 0.0 || newParams.maxAbsVelocity < 0.0 || newParams.gateSigma < 0.0
      {
        return;
      }
      params := newParams;
      ClampState();
    }

    method ResetTo(position: real, velocity: real)
      requires Valid()
      modifies this
      ensures Valid() && View() == Apply(old(View()), Reset(position, velocity))
    {
      ApplyBounded(View(), Reset(position, velocity));
      x, v := position, velocity;
      p00, p01, p10, p11 := 1.0, 0.0, 0.0, 1.0;
      ClampState();
      healthy, lastStamp, rejected := true, 0, 0;
    }

    method PredictState(accel: real, dt: real)
      modifies this`x, this`v, this`p00, this`p01, this`p10, this`p11
      ensures CurrentEstimate() == Predict(params, old(CurrentEstimate()), accel, dt)
    {
      var qPos := Max(params.processNoisePosition, params.minVariance);
      var qVel := Max(params.processNoiseVelocity, params.minVariance);
      var e := CurrentEstimate();
      x := e.x + (e.v * dt + 0.5 * accel * dt * dt);
      v := e.v + accel * dt;
      PropagateEntries(e.p, dt, qPos, qVel);
      assert CurrentEstimate() == Extrapolate(params, e, accel, dt);
      ClampState();
    }

    /** The covariance part of a prediction, from the entries `p` it starts with. */
    method PropagateEntries(p: Covariance, dt: real, qPos: real, qVel: real)
      modifies this`p00, this`p01, this`p10, this`p11
      ensures Covariance(p00, p01, p10, p11) == Propagate(p, dt, qPos, qVel)
    {
      p00 := Form(p.p00, p.p10 + p.p01, p.p11, dt) + qPos;
      p01 := p.p01 + dt * p.p11;
      p10 := p.p10 + dt * p.p11;
      p11 := p.p11 + qVel;
    }

    method CorrectState(z: real, s: real)
      requires s != 0.0
      modifies this`x, this`v, this`p00, this`p01, this`p10, this`p11
      ensures CurrentEstimate() == Correct(params, old(CurrentEstimate()), z, s)
    {
      var e := CurrentEstimate();
      x := e.x + e.p.p00 / s * (z - e.x);
      v := e.v + e.p.p10 / s * (z - e.x);
      ShrinkEntries(e.p, s);
      assert CurrentEstimate() == Blend(e, z, s);
      ClampState();
    }

    /** The covariance part of a correction, from the entries `p` it starts with. */
    method ShrinkEntries(p: Covariance, s: real)
      requires s != 0.0
      modifies this`p00, this`p01, this`p10, this`p11
      ensures Covariance(p00, p01, p10, p11) == Shrink(p, s)
    {
      var k0, k1 := p.p00 / s, p.p10 / s;
      p00 := (1.0 - k0) * p.p00;
      p01 := (1.0 - k0) * p.p01;
      p10 := p.p10 - k1 * p.p00;
      p11 := p.p11 - k1 * p.p01;
    }

    /** The part both `update` overloads share once the period is known. */
    method Fuse(z: real, accel: real, dt: real) returns (ok: bool)
      requires Valid()
      modifies this
      ensures Valid() && View() == Measured(old(View()), z, accel, dt) && ok == healthy
    {
      MeasuredBounded(View(), z, accel, dt);
      PredictBounded(params, CurrentEstimate(), accel, dt);
      PredictState(accel, dt);
      var r := Max(params.measurementNoise, params.minVariance);
      var s := p00 + r;
      if s <= params.minVariance {
        healthy := false;
        return false;
      }
      if !GateOpen(params, z - x, s) {
        rejected := (rejected + 1) % U64;
        return healthy;
      }
      CorrectState(z, s);
      healthy := true;
      return true;
    }

    method Update(z: real, accel: real) returns (ok: bool)
      requires Valid()
      modifies this
      ensures Valid() && View() == Apply(old(View()), Measure(z, accel)) && ok == healthy
    {
      ok := Fuse(z, accel, View().PeriodSeconds());
    }

    method UpdateStamped(z: real, accel: real, stamp: u64) returns (ok: bool)
      requires Valid()
      modifies this
      ensures Valid() && View() == Apply(old(View()), MeasureAt(z, accel, stamp)) && ok == healthy
    {
      var dt := View().PeriodSeconds();
      if lastStamp > 0 && stamp > lastStamp {
        dt := (stamp - lastStamp) as real * 0.000000001;
      }
      lastStamp := stamp;
      if dt > View().PeriodSeconds() * STALE_MULTIPLIER {
        return healthy;
      }
      ok := Fuse(z, accel, dt);
    }
  }
}
