/** `SpeedLimitController`: halves the limit while a sensor is degraded and ramps it back afterwards. */
module SpeedLimit {
  import opened Numeric

  datatype Limiter = Limiter(maxSpeed: real, current: real, target: real, rampNs: u64, rampStart: Option<u64>)
  {
    /** A running ramp always leads back to the maximum. */
    predicate Sound() {
      && 0.0 <= current <= maxSpeed
      && (target == 0.0 || target == maxSpeed * 0.5 || target == maxSpeed)
      && (rampStart.Some? ==> target == maxSpeed)
    }

    /** At most half speed, and nothing under way that would raise it. */
    predicate Halved() {
      current <= maxSpeed * 0.5 && target <= maxSpeed * 0.5 && rampStart.None?
    }
  }

  function Start(maxSpeed: real, rampNs: u64): Limiter {
    Limiter(maxSpeed, maxSpeed, maxSpeed, rampNs, None)
  }

  /** Linear interpolation from half speed to the target. */
  function RampValue(l: Limiter, elapsed: nat): real
    requires elapsed < l.rampNs
  {
    var half := l.maxSpeed * 0.5;
    half + (l.target - half) * (elapsed as real / l.rampNs as real)
  }

  function Update(l: Limiter, now: u64, safeStop: bool): Limiter {
    if safeStop then l.(current := 0.0, target := 0.0, rampStart := None)
    else if l.rampStart.None? then l.(current := l.target)
    else
      var elapsed := Sub64(now, l.rampStart.value);
      if elapsed >= l.rampNs then l.(current := l.target, rampStart := None)
      else l.(current := RampValue(l, elapsed))
  }

  function OnDegraded(l: Limiter): Limiter {
    l.(target := l.maxSpeed * 0.5, rampStart := None, current := l.maxSpeed * 0.5)
  }

  function OnRecovered(l: Limiter, now: u64): Limiter {
    l.(target := l.maxSpeed, rampStart := Some(now))
  }

  lemma Fraction(part: nat, whole: nat)
    requires part < whole
    ensures 0.0 <= part as real / whole as real < 1.0
  {
    QuotientSign(part as real, whole as real);
    QuotientOrder(whole as real, whole as real, part as real / whole as real);
  }

  lemma RampRange(half: real, f: real, g: real)
    requires 0.0 <= half && 0.0 <= f <= g <= 1.0
    ensures half <= half + half * f <= half + half * g <= half + half
  {
    ProductSign(half, f);
    ProductSign(half, g - f);
    ProductSign(half, 1.0 - g);
  }

  /** The ramp stays between half and full speed and rises with time. */
  lemma RampOrder(l: Limiter, a: nat, b: nat)
    requires 0.0 <= l.maxSpeed && l.target == l.maxSpeed && a <= b < l.rampNs
    ensures l.maxSpeed * 0.5 <= RampValue(l, a) <= RampValue(l, b) <= l.maxSpeed
  {
    var half := l.maxSpeed * 0.5;
    Fraction(a, l.rampNs);
    Fraction(b, l.rampNs);
    QuotientMonotone(a as real, b as real, l.rampNs as real);
    RampRange(half, a as real / l.rampNs as real, b as real / l.rampNs as real);
    assert l.target - half == half;
  }

  lemma UpdateSound(l: Limiter, now: u64, safeStop: bool)
    requires l.Sound()
    ensures Update(l, now, safeStop).Sound()
    ensures l.Halved() ==> Update(l, now, safeStop).Halved()
  {
    if !safeStop && l.rampStart.Some? && Sub64(now, l.rampStart.value) < l.rampNs {
      RampOrder(l, Sub64(now, l.rampStart.value), Sub64(now, l.rampStart.value));
    }
  }

  /** What an update leaves while a ramp runs, by the time elapsed. */
  function Ramped(l: Limiter, elapsed: nat): real {
    if elapsed >= l.rampNs then l.target else RampValue(l, elapsed)
  }

  lemma RampedOrder(l: Limiter, a: nat, b: nat)
    requires 0.0 <= l.maxSpeed && l.target == l.maxSpeed && a <= b
    ensures l.maxSpeed * 0.5 <= Ramped(l, a) <= Ramped(l, b)
  {
    if b < l.rampNs {
      RampOrder(l, a, b);
    } else if a < l.rampNs {
      RampOrder(l, a, a);
    }
  }

  lemma UpdateIsRamped(l: Limiter, t: u64)
    requires l.rampStart.Some? && l.rampStart.value <= t
    ensures Update(l, t, false).current == Ramped(l, t - l.rampStart.value)
  {
    assert Sub64(t, l.rampStart.value) == t - l.rampStart.value;
  }

  /** While a ramp runs and the clock does not go back, the limit rises from half speed and never falls. */
  lemma RampRises(l: Limiter, t: u64, t': u64)
    requires l.Sound() && l.rampStart.Some? && l.rampStart.value <= t <= t'
    ensures l.maxSpeed * 0.5 <= Update(l, t, false).current <= Update(l, t', false).current
    ensures t' - l.rampStart.value >= l.rampNs ==> Update(l, t', false).current == l.maxSpeed
  {
    UpdateIsRamped(l, t);
    UpdateIsRamped(l, t');
    RampedOrder(l, t - l.rampStart.value, t' - l.rampStart.value);
  }

  /** What an update leaves: zero in a safe stop, the target, or a value that rises linearly from half to full speed. */
  lemma UpdateDecides(l: Limiter, now: u64, safeStop: bool)
    requires l.Sound()
    ensures var k := Update(l, now, safeStop);
            if safeStop then k == Limiter(l.maxSpeed, 0.0, 0.0, l.rampNs, None)
            else if l.rampStart.None? then k == l.(current := l.target)
            else
              var elapsed := (now - l.rampStart.value) % U64;
              if l.rampNs <= elapsed then k == l.(current := l.maxSpeed, rampStart := None)
              else
                && k == l.(current := k.current)
                && (k.current - l.maxSpeed / 2.0) * l.rampNs as real == l.maxSpeed / 2.0 * elapsed as real
  {
    if !safeStop && l.rampStart.Some? && Sub64(now, l.rampStart.value) < l.rampNs {
      RampIsLinear(l, Sub64(now, l.rampStart.value));
    }
  }

  lemma RampIsLinear(l: Limiter, elapsed: nat)
    requires elapsed < l.rampNs && l.target == l.maxSpeed
    ensures (RampValue(l, elapsed) - l.maxSpeed / 2.0) * l.rampNs as real == l.maxSpeed / 2.0 * elapsed as real
  {
    var half, whole := l.maxSpeed / 2.0, l.rampNs as real;
    var fraction := elapsed as real / whole;
    assert fraction * whole == elapsed as real;
    assert half * fraction * whole == half * (fraction * whole);
    assert RampValue(l, elapsed) == half + half * fraction;
  }

  class SpeedLimitController {
    var maxSpeed: real
    var current: real
    var target: real
    var rampNs: u64
    var rampStart: Option<u64>

    function View(): Limiter
      reads this
    {
      Limiter(maxSpeed, current, target, rampNs, rampStart)
    }

    constructor (maxSpeed: real, rampNs: u64)
      ensures View() == Start(maxSpeed, rampNs)
    {
      this.maxSpeed, current, target := maxSpeed, maxSpeed, maxSpeed;
      this.rampNs, rampStart := rampNs, None;
    }

    method UpdateLimit(now: u64, safeStop: bool) returns (limit: real)
      modifies this
      ensures View() == Update(old(View()), now, safeStop) && limit == current
    {
      if safeStop {
        current, target, rampStart := 0.0, 0.0, None;
        return 0.0;
      }
      if rampStart.Some? {
        var elapsed := Sub64(now, rampStart.value);
        if elapsed >= rampNs {
          current := target;
          rampStart := None;
        } else {
          var degradedLimit := maxSpeed * 0.5;
          var rampRange := target - degradedLimit;
          var fraction := elapsed as real / rampNs as real;
          current := degradedLimit + rampRange * fraction;
        }
      } else {
        current := target;
      }
      return current;
    }

    method Degrade()
      modifies this
      ensures View() == OnDegraded(old(View()))
    {
      target := maxSpeed * 0.5;
      rampStart := None;
      current := target;
    }

    method Recover(now: u64)
      modifies this
      ensures View() == OnRecovered(old(View()), now)
    {
      target := maxSpeed;
      rampStart := Some(now);
    }
  }
}
