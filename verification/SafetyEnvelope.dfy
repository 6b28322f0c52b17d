/** The stopping envelope: how much clearance a speed needs, and the zone that follows from it. */
module SafetyEnvelope {
  import opened Numeric

  /** `MotionEnvelopeConfig` */
  datatype Envelope = Envelope(
    maxSpeed: real,
    maxAccel: real,
    comfortDecel: real,
    latency: real,
    buffer: real)

  datatype Zone = Clear | Warning | Protective | Emergency

  /** A distance that is infinite when the robot cannot brake at all. */
  datatype Clearance = Finite(m: real) | Infinite

  /** The recommended speed limit is kept squared, so that the square root needs no model. */
  datatype Evaluation = Evaluation(
    withinEnvelope: bool,
    zone: Zone,
    required: Clearance,
    recommendedSquared: real)

  /** Ground covered while coasting for `latency` and then braking from `v`. */
  function StoppingGround(v: real, latency: real, decel: real): real
    requires 0.0 < decel
  {
    v * latency + (v * v) / (2.0 * decel)
  }

  function RequiredClearance(speed: real, decel: real, latency: real, buffer: real): Clearance {
    var v := Max(0.0, speed);
    if decel <= 0.0 then Infinite else
      Finite(StoppingGround(v, Max(0.0, latency), decel) + buffer)
  }

  predicate Covers(distance: real, required: Clearance) {
    required.Finite? && distance >= required.m
  }

  function EvaluateStopDistance(
    distance: real, speed: real, decel: real, latency: real, buffer: real): Evaluation
  {
    var required := RequiredClearance(speed, decel, latency, buffer);
    var within := Covers(distance, required);
    if distance < buffer then
      Evaluation(within, Emergency, required, 0.0)
    else if !within then
      Evaluation(within, Protective, required, 0.0)
    else if distance < required.m * 1.5 then
      var available := distance - buffer;
      Evaluation(within, Warning, required, if available > 0.0 then 2.0 * decel * available * 0.7 else 0.0)
    else
      Evaluation(within, Clear, required, Max(0.0, speed) * Max(0.0, speed))
  }

  function Required(speed: real, env: Envelope): Clearance {
    RequiredClearance(speed, env.comfortDecel, env.latency, env.buffer)
  }

  /** Enough room to coast out the latency, brake, and keep the buffer. */
  predicate Within(distance: real, speed: real, env: Envelope) {
    Covers(distance, Required(speed, env))
  }

  function Evaluate(distance: real, speed: real, env: Envelope): Evaluation {
    EvaluateStopDistance(distance, speed, env.comfortDecel, env.latency, env.buffer)
  }

  lemma BrakingDistanceSign(v: real, decel: real)
    requires 0.0 < decel
    ensures 0.0 <= (v * v) / (2.0 * decel)
  {
    assert 0.0 <= v * v;
    QuotientSign(v * v, 2.0 * decel);
  }

  lemma ClearanceOrder(v: real, w: real, latency: real, decel: real)
    requires 0.0 < decel && 0.0 <= v <= w && 0.0 <= latency
    ensures 0.0 <= StoppingGround(v, latency, decel) <= StoppingGround(w, latency, decel)
  {
    ProductSign(v, latency);
    BrakingDistanceSign(v, decel);
    ProductSign(w - v, latency);
    ProductSign(w - v, w + v);
    QuotientMonotone(v * v, w * w, 2.0 * decel);
  }

  lemma RequiredOrder(slow: real, fast: real, env: Envelope)
    requires slow <= fast && 0.0 < env.comfortDecel
    ensures Required(slow, env).Finite? && Required(fast, env).Finite?
    ensures Required(slow, env).m <= Required(fast, env).m
  {
    ClearanceOrder(Max(0.0, slow), Max(0.0, fast), Max(0.0, env.latency), env.comfortDecel);
  }

  /** A robot that may keep going is never closer than the safety buffer. */
  lemma WithinMeansBuffered(distance: real, speed: real, env: Envelope)
    requires Within(distance, speed, env)
    ensures 0.0 < env.comfortDecel && env.buffer <= distance
  {
    var v := Max(0.0, speed);
    ClearanceOrder(v, v, Max(0.0, env.latency), env.comfortDecel);
  }

  /** The two zones in which motion goes on are exactly the ones within the envelope. */
  lemma ZonesSplitTheEnvelope(distance: real, speed: real, env: Envelope)
    ensures var e := Evaluate(distance, speed, env);
            && (e.withinEnvelope <==> Within(distance, speed, env))
            && (Within(distance, speed, env) <==> e.zone == Clear || e.zone == Warning)
            && (e.zone == Emergency <==> distance < env.buffer)
  {
    if Within(distance, speed, env) {
      WithinMeansBuffered(distance, speed, env);
    }
  }

  /**
   * Every zone by its thresholds. `needed` is what coasting for the latency, braking at comfort deceleration and the
   * buffer take together; without a comfort deceleration no distance is enough.
   */
  lemma ZonesByThreshold(distance: real, speed: real, env: Envelope, needed: real)
    requires 0.0 < env.comfortDecel ==>
               var v := Max(0.0, speed);
               needed == v * Max(0.0, env.latency) + v * v / (2.0 * env.comfortDecel) + env.buffer
    ensures var e := Evaluate(distance, speed, env);
            var enough := 0.0 < env.comfortDecel && needed <= distance;
            && (env.comfortDecel <= 0.0 ==> e.required.Infinite?)
            && (0.0 < env.comfortDecel ==> e.required == Finite(needed))
            && e.withinEnvelope == enough
            && (e.zone == Emergency <==> distance < env.buffer)
            && (e.zone == Protective <==> env.buffer <= distance && !enough)
            && (e.zone == Warning <==> enough && distance < 1.5 * needed)
            && (e.zone == Clear <==> enough && 1.5 * needed <= distance)
            && e.recommendedSquared ==
                 (if e.zone == Clear then Max(0.0, speed) * Max(0.0, speed)
                  else if e.zone == Warning && env.buffer < distance then
                    1.4 * env.comfortDecel * (distance - env.buffer)
                  else 0.0)
  {
    if Within(distance, speed, env) {
      WithinMeansBuffered(distance, speed, env);
    }
  }

  /** More room or less speed never turns a point that is within the envelope into one that is not. */
  lemma EnvelopeMonotone(near: real, far: real, slow: real, fast: real, env: Envelope)
    requires near <= far && slow <= fast && Within(near, fast, env)
    ensures Within(far, slow, env)
  {
    WithinMeansBuffered(near, fast, env);
    RequiredOrder(slow, fast, env);
  }

  /**
   * The speed hinted in the Warning zone, a square root, lets plain braking use up 70% of the room before the buffer.
   * It ignores latency: the hint is within the envelope exactly when coasting takes no more than the other 30%.
   */
  lemma WarningHintWithinIff(distance: real, speed: real, env: Envelope, hint: real)
    requires Evaluate(distance, speed, env).zone == Warning
    requires 0.0 <= hint && hint * hint == Evaluate(distance, speed, env).recommendedSquared
    ensures 0.0 < env.comfortDecel
    ensures Within(distance, hint, env) <==> hint * Max(0.0, env.latency) <= 0.3 * (distance - env.buffer)
  {
    ZonesSplitTheEnvelope(distance, speed, env);
    WithinMeansBuffered(distance, speed, env);
    HintedRoom(distance, speed, env);
    HintedGround(hint, Max(0.0, env.latency), env.comfortDecel, distance - env.buffer);
  }

  lemma HintedRoom(distance: real, speed: real, env: Envelope)
    requires Evaluate(distance, speed, env).zone == Warning
    ensures Evaluate(distance, speed, env).recommendedSquared == Hint(env.comfortDecel, distance - env.buffer)
  {
  }

  function Hint(decel: real, room: real): real {
    if room > 0.0 then 2.0 * decel * room * 0.7 else 0.0
  }

  lemma HintedGround(hint: real, latency: real, decel: real, room: real)
    requires 0.0 < decel && 0.0 <= room && hint * hint == Hint(decel, room)
    ensures StoppingGround(hint, latency, decel) == hint * latency + 0.7 * room
  {
    SeventyPercent(hint, decel, room);
  }

  lemma SeventyPercent(hint: real, decel: real, room: real)
    requires 0.0 < decel && 0.0 <= room
    requires hint * hint == Hint(decel, room)
    ensures (hint * hint) / (2.0 * decel) == 0.7 * room
  {
    var k := 2.0 * decel;
    assert hint * hint == k * (0.7 * room);
    assert (k * (0.7 * room)) / k == 0.7 * room;
  }
}
