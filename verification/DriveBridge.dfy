/**
 * `SafetyDriveBridgeNode`: forwards navigation commands within the limits, and replays a jerk-limited stop profile
 * tick by tick while a safe stop is asserted.
 */
module DriveBridging {
  import opened Numeric
  import opened StopProfile
  import Smooth = JerkLimitedStop

  const PROFILE_CAPACITY := 256
  const UNRESTRICTED := 1000000000.0

  datatype Twist = Twist(linear: real, angular: real)

  const ZERO_TWIST := Twist(0.0, 0.0)

  datatype Params = Params(
    maxLinear: real,
    maxAngular: real,
    maxDecel: real,
    maxJerk: real,
    freshnessNs: u64,
    period: real)
  {
    /** The node refuses to start with any other parameters. */
    predicate Acceptable() {
      0.0 < maxLinear && 0.0 < maxAngular && 0.0 < maxDecel && 0.0 < maxJerk && 0.0 < period
    }

    function StopFrom(speed: real): StopRequest {
      StopRequest(Max(0.0, speed), maxDecel, maxJerk, period)
    }
  }

  /** `plan` holds the speeds of the stop profile that are still to be published. */
  datatype Bridge = Bridge(
    safeStop: bool,
    fault: bool,
    recommended: real,
    recovery: real,
    measured: real,
    nav: Option<Twist>,
    navTime: u64,
    plan: seq<real>,
    lastPublished: real)

  datatype Event =
    | Nav(cmd: Twist, now: u64)
    | Envelope(zone: byte, recommended: real)
    | SafeStop(asserted: bool)
    | State(faultLatched: bool)
    | Odometry(speed: real)
    | RecoveryLimit(limit: real)
    | ControlTick(now: u64)

  // ----- the callbacks on values

  function Speeds(points: seq<TrajectoryPoint>): (s: seq<real>)
    ensures |s| == |points|
  {
    seq(|points|, i requires 0 <= i < |points| => points[i].speed)
  }

  lemma SpeedsTail(points: seq<TrajectoryPoint>)
    requires points != []
    ensures Speeds(points) != [] && Speeds(points)[0] == points[0].speed && Speeds(points)[1..] == Speeds(points[1..])
  {
  }

  /** The speeds to publish after a stop is asserted: none when the profile does not fit the buffer. */
  function StopPlan(p: Params, measured: real): seq<real>
    requires p.Acceptable()
  {
    var request := p.StopFrom(measured);
    if Smooth.Steps(request) < PROFILE_CAPACITY then Speeds(Smooth.Profile(request)) else []
  }

  function OnSafeStop(p: Params, b: Bridge, asserted: bool): Bridge
    requires p.Acceptable()
  {
    var m := b.(safeStop := asserted);
    if asserted && !b.safeStop then m.(plan := StopPlan(p, b.measured))
    else if !asserted then m.(plan := [])
    else m
  }

  function SpeedCeiling(p: Params, b: Bridge): real {
    Min(Min(p.maxLinear, b.recommended), b.recovery)
  }

  function ClampCommand(p: Params, b: Bridge, cmd: Twist): Twist {
    var v := SpeedCeiling(p, b);
    Twist(Clamp(cmd.linear, -v, v), Clamp(cmd.angular, -p.maxAngular, p.maxAngular))
  }

  predicate NavFresh(p: Params, b: Bridge, now: u64) {
    b.nav.Some? && Sub64(now, b.navTime) <= p.freshnessNs
  }

  /** The next control tick replays a speed of the stop profile. */
  predicate Replays(b: Bridge) {
    b.safeStop && !b.fault && b.plan != [] && b.plan[0] != 0.0
  }

  /** What a control tick publishes. */
  function Output(p: Params, b: Bridge, now: u64): Twist {
    if b.fault then ZERO_TWIST
    else if b.safeStop then if b.plan != [] then Twist(b.plan[0], 0.0) else ZERO_TWIST
    else if NavFresh(p, b, now) then ClampCommand(p, b, b.nav.value)
    else ZERO_TWIST
  }

  function OnControlTick(p: Params, b: Bridge, now: u64): Bridge {
    b.(lastPublished := Output(p, b, now).linear,
       plan := if !b.fault && b.safeStop && b.plan != [] then b.plan[1..] else b.plan)
  }

  function Step(p: Params, b: Bridge, e: Event): Bridge
    requires p.Acceptable()
  {
    match e
    case Nav(cmd, now) => b.(nav := Some(cmd), navTime := now)
    case Envelope(zone, recommended) =>
      b.(recommended := if zone == 0 then p.maxLinear else Max(0.0, recommended))
    case SafeStop(asserted) => OnSafeStop(p, b, asserted)
    case State(faultLatched) => b.(fault := faultLatched)
    case Odometry(speed) => b.(measured := speed)
    case RecoveryLimit(limit) => b.(recovery := Max(0.0, limit))
    case ControlTick(now) => OnControlTick(p, b, now)
  }

  function Run(p: Params, b: Bridge, events: seq<Event>): Bridge
    requires p.Acceptable()
    decreases |events|
  {
    if events == [] then b else Run(p, Step(p, b, events[0]), events[1..])
  }

  /** The commands published by a run, one for each control tick. */
  function Outputs(p: Params, b: Bridge, events: seq<Event>): seq<Twist>
    requires p.Acceptable()
    decreases |events|
  {
    if events == [] then []
    else
      (if events[0].ControlTick? then [Output(p, b, events[0].now)] else [])
      + Outputs(p, Step(p, b, events[0]), events[1..])
  }

  function Initial(): Bridge {
    Bridge(false, false, UNRESTRICTED, UNRESTRICTED, 0.0, None, 0, [], 0.0)
  }

  // ----- the stop profile

  /** Speeds that never rise, start no higher than `top` and end at rest. */
  predicate Falling(plan: seq<real>, top: real) {
    && (forall i :: 0 <= i < |plan| ==> 0.0 <= plan[i] <= top)
    && (forall i, j :: 0 <= i <= j < |plan| ==> plan[j] <= plan[i])
    && (plan != [] ==> plan[|plan| - 1] == 0.0)
  }

  lemma StopPlanFalls(p: Params, measured: real)
    requires p.Acceptable()
    ensures var plan := StopPlan(p, measured);
            |plan| <= PROFILE_CAPACITY && Falling(plan, Max(0.0, measured))
    ensures Smooth.Steps(p.StopFrom(measured)) < PROFILE_CAPACITY ==>
              StopPlan(p, measured) != [] && StopPlan(p, measured)[0] == Max(0.0, measured)
  {
    var request := p.StopFrom(measured);
    if Smooth.Steps(request) < PROFILE_CAPACITY {
      var plan := StopPlan(p, measured);
      forall i, j | 0 <= i <= j < |plan| ensures 0.0 <= plan[j] <= plan[i] <= Max(0.0, measured) {
        Smooth.ProfileSpeeds(request, i, j);
      }
      Smooth.ProfileSpeeds(request, |plan| - 1, |plan| - 1);
      Smooth.MovingIffBeforeEnd(request, 0);
    }
  }

  /** Received limits are not negative, and what is left of a stop profile falls to rest. */
  predicate Inv(b: Bridge) {
    0.0 <= b.recommended && 0.0 <= b.recovery && Falling(b.plan, if b.plan == [] then 0.0 else b.plan[0])
  }

  lemma StepKeeps(p: Params, b: Bridge, e: Event)
    requires p.Acceptable() && Inv(b)
    ensures Inv(Step(p, b, e))
  {
    if e == SafeStop(true) {
      StopPlanFalls(p, b.measured);
    }
  }

  // ----- forwarding

  /** A forwarded command respects all three speed limits; one that already does is forwarded unchanged. */
  lemma ForwardedWithinLimits(p: Params, b: Bridge, now: u64)
    requires p.Acceptable() && Inv(b) && !b.safeStop
    ensures var out := Output(p, b, now);
            && Abs(out.linear) <= p.maxLinear && Abs(out.linear) <= b.recommended && Abs(out.linear) <= b.recovery
            && Abs(out.angular) <= p.maxAngular
    ensures !b.fault && NavFresh(p, b, now)
            && Abs(b.nav.value.linear) <= SpeedCeiling(p, b) && Abs(b.nav.value.angular) <= p.maxAngular ==>
              Output(p, b, now) == b.nav.value
  {
  }

  /** Under a stop a tick publishes zero exactly when it replays nothing. */
  lemma StopOutputIff(p: Params, b: Bridge, now: u64)
    requires p.Acceptable() && b.safeStop
    ensures Output(p, b, now) == ZERO_TWIST <==> !Replays(b)
  {
  }

  /** The recovery limit holds exactly unless a tick replays a speed above it. */
  lemma RecoveryLimitIff(p: Params, b: Bridge, now: u64)
    requires p.Acceptable() && Inv(b)
    ensures Abs(Output(p, b, now).linear) <= b.recovery <==> !(Replays(b) && b.recovery < b.plan[0])
  {
    if !b.safeStop {
      ForwardedWithinLimits(p, b, now);
    }
  }

  // ----- what the bridge remembers, and what it forwards

  datatype Received = Received(cmd: Twist, time: u64)

  /** The last navigation command of a run. */
  function LastNav(events: seq<Event>): Option<Received> {
    if events == [] then None
    else
      var e := events[|events| - 1];
      if e.Nav? then Some(Received(e.cmd, e.now)) else LastNav(events[..|events| - 1])
  }

  function LastFault(events: seq<Event>): bool {
    if events == [] then false
    else
      var e := events[|events| - 1];
      if e.State? then e.faultLatched else LastFault(events[..|events| - 1])
  }

  function LastStop(events: seq<Event>): bool {
    if events == [] then false
    else
      var e := events[|events| - 1];
      if e.SafeStop? then e.asserted else LastStop(events[..|events| - 1])
  }

  /** The speed last recommended: the parameter's in Clear, and no restriction before the first message. */
  function LastRecommended(p: Params, events: seq<Event>): real {
    if events == [] then 1000000000.0
    else
      var e := events[|events| - 1];
      if e.Envelope? then (if e.zone == 0 then p.maxLinear else if e.recommended < 0.0 then 0.0 else e.recommended)
      else LastRecommended(p, events[..|events| - 1])
  }

  function LastLimit(events: seq<Event>): real {
    if events == [] then 1000000000.0
    else
      var e := events[|events| - 1];
      if e.RecoveryLimit? then (if e.limit < 0.0 then 0.0 else e.limit) else LastLimit(events[..|events| - 1])
  }

  function LastSpeed(events: seq<Event>): real {
    if events == [] then 0.0
    else
      var e := events[|events| - 1];
      if e.Odometry? then e.speed else LastSpeed(events[..|events| - 1])
  }

  lemma {:induction false} RunAppend(p: Params, b: Bridge, events: seq<Event>, e: Event)
    requires p.Acceptable()
    ensures Run(p, b, events + [e]) == Step(p, Run(p, b, events), e)
    decreases |events|
  {
    if events == [] {
      assert [] + [e] == [e];
    } else {
      assert (events + [e])[1..] == events[1..] + [e];
      RunAppend(p, Step(p, b, events[0]), events[1..], e);
    }
  }

  /** The bridge holds what it last received on each topic. */
  predicate Holds(p: Params, b: Bridge, events: seq<Event>) {
    && b.nav == (if LastNav(events).Some? then Some(LastNav(events).value.cmd) else None)
    && (LastNav(events).Some? ==> b.navTime == LastNav(events).value.time)
    && b.fault == LastFault(events) && b.safeStop == LastStop(events)
    && b.recommended == LastRecommended(p, events) && b.recovery == LastLimit(events)
    && b.measured == LastSpeed(events)
  }

  /** What one more event does to the last values. */
  lemma LastAppend(p: Params, events: seq<Event>, e: Event)
    ensures var all := events + [e];
            && LastNav(all) == (if e.Nav? then Some(Received(e.cmd, e.now)) else LastNav(events))
            && LastFault(all) == (if e.State? then e.faultLatched else LastFault(events))
            && LastStop(all) == (if e.SafeStop? then e.asserted else LastStop(events))
            && LastRecommended(p, all) ==
                 (if e.Envelope? then (if e.zone == 0 then p.maxLinear else Max(0.0, e.recommended))
                  else LastRecommended(p, events))
            && LastLimit(all) == (if e.RecoveryLimit? then Max(0.0, e.limit) else LastLimit(events))
            && LastSpeed(all) == (if e.Odometry? then e.speed else LastSpeed(events))
  {
    var all := events + [e];
    assert all[..|all| - 1] == events && all[|all| - 1] == e;
  }

  lemma StepHolds(p: Params, b: Bridge, events: seq<Event>, e: Event)
    requires p.Acceptable() && Holds(p, b, events)
    ensures Holds(p, Step(p, b, e), events + [e])
  {
    LastAppend(p, events, e);
  }

  /** After every run the bridge holds what it last received on each topic. */
  lemma {:induction false} Remembers(p: Params, events: seq<Event>)
    requires p.Acceptable()
    ensures Holds(p, Run(p, Initial(), events), events) && Inv(Run(p, Initial(), events))
  {
    if events != [] {
      var before, e := events[..|events| - 1], events[|events| - 1];
      Remembers(p, before);
      RunAppend(p, Initial(), before, e);
      StepKeeps(p, Run(p, Initial(), before), e);
      StepHolds(p, Run(p, Initial(), before), before, e);
      assert events == before + [e];
    }
  }

  /**
   * A control tick with neither flag up forwards the last navigation command, brought to the nearest one inside the
   * limits, if one was received no longer ago than the freshness limit, and publishes zero otherwise.
   */
  lemma TickForwards(p: Params, events: seq<Event>, now: u64)
    requires p.Acceptable() && !LastFault(events) && !LastStop(events)
    ensures var out, nav := Output(p, Run(p, Initial(), events), now), LastNav(events);
            var a, r, l := p.maxLinear, LastRecommended(p, events), LastLimit(events);
            var ceiling := if a <= r && a <= l then a else if r <= l then r else l;
            if nav.None? || p.freshnessNs < (now - nav.value.time) % U64 then out == ZERO_TWIST
            else
              && Nearest(nav.value.cmd.linear, -ceiling, ceiling, out.linear)
              && Nearest(nav.value.cmd.angular, -p.maxAngular, p.maxAngular, out.angular)
  {
    Remembers(p, events);
  }

  /** A control tick under the fault flag publishes zero. */
  lemma TickHalts(p: Params, events: seq<Event>, now: u64)
    requires p.Acceptable() && LastFault(events)
    ensures Output(p, Run(p, Initial(), events), now) == Twist(0.0, 0.0)
  {
    Remembers(p, events);
  }

  // ----- stopping while the fault flag does not fall

  /** The stop is not withdrawn, and the fault flag never falls. */
  predicate Held(p: Params, b: Bridge, events: seq<Event>)
    requires p.Acceptable()
    decreases |events|
  {
    events == [] ||
    (events[0] != SafeStop(false) && !(b.fault && events[0] == State(false))
     && Held(p, Step(p, b, events[0]), events[1..]))
  }

  /** `out` starts no higher than `top`, never rises, and is zero from tick number `n` on. */
  predicate StopsWithin(out: seq<Twist>, top: real, n: nat) {
    && (forall i :: 0 <= i < |out| ==> out[i].angular == 0.0 && 0.0 <= out[i].linear <= top)
    && (forall i, j :: 0 <= i <= j < |out| ==> out[j].linear <= out[i].linear)
    && (forall i :: 0 <= i < |out| && n <= i + 1 ==> out[i].linear == 0.0)
  }

  lemma StopsPrepend(first: real, out: seq<Twist>, top: real, n: nat)
    requires 0.0 <= first <= top && StopsWithin(out, first, n)
    requires n == 0 ==> first == 0.0
    ensures StopsWithin([Twist(first, 0.0)] + out, top, n + 1)
  {
  }

  lemma {:induction false} StopRun(p: Params, b: Bridge, events: seq<Event>, top: real, n: nat)
    requires p.Acceptable() && b.safeStop && Held(p, b, events)
    requires 0.0 <= top && (if b.fault then n == 0 else Falling(b.plan, top) && |b.plan| <= n)
    ensures StopsWithin(Outputs(p, b, events), top, n)
    decreases |events|
  {
    if events != [] {
      var e, rest := events[0], events[1..];
      var k := Step(p, b, e);
      if !e.ControlTick? {
        StopRun(p, k, rest, top, if k.fault then 0 else n);
      } else if b.fault || b.plan == [] {
        StopRun(p, k, rest, 0.0, if b.fault then 0 else n);
        ZeroFirst(Outputs(p, k, rest), top, n);
      } else {
        StopRun(p, k, rest, b.plan[0], n - 1);
        StopsPrepend(b.plan[0], Outputs(p, k, rest), top, n - 1);
      }
    }
  }

  lemma ZeroFirst(out: seq<Twist>, top: real, n: nat)
    requires 0.0 <= top && StopsWithin(out, 0.0, n)
    ensures StopsWithin([ZERO_TWIST] + out, top, n)
  {
  }

  /**
   * From the moment a safe stop is asserted, while it stays asserted and the fault flag does not fall, the published
   * speeds start no higher than the measured forward speed, never rise, are zero from the 256th tick on, and turn
   * nowhere; this holds whatever other messages arrive and whether or not the profile fitted its buffer.
   */
  lemma HeldStopStops(p: Params, b: Bridge, events: seq<Event>)
    requires p.Acceptable() && !b.safeStop
    requires Held(p, Step(p, b, SafeStop(true)), events)
    ensures StopsWithin(Outputs(p, Step(p, b, SafeStop(true)), events), Max(0.0, b.measured), PROFILE_CAPACITY)
  {
    StopPlanFalls(p, b.measured);
    var k := Step(p, b, SafeStop(true));
    StopRun(p, k, events, Max(0.0, b.measured), if k.fault then 0 else PROFILE_CAPACITY);
  }

  // ----- stopping, whatever the fault flag does

  /** The stop is not withdrawn. */
  predicate Asserted(events: seq<Event>) {
    forall i :: 0 <= i < |events| ==> events[i] != SafeStop(false)
  }

  /** The fault flag is up at every control tick of the run. */
  predicate FaultAtTicks(p: Params, b: Bridge, events: seq<Event>)
    requires p.Acceptable()
    decreases |events|
  {
    events == [] ||
    ((events[0].ControlTick? ==> b.fault) && FaultAtTicks(p, Step(p, b, events[0]), events[1..]))
  }

  predicate AllZero(out: seq<Twist>) {
    forall i :: 0 <= i < |out| ==> out[i] == ZERO_TWIST
  }

  lemma AllZeroSplit(first: seq<Twist>, rest: seq<Twist>)
    ensures AllZero(first + rest) <==> AllZero(first) && AllZero(rest)
  {
    forall i | 0 <= i < |rest| ensures rest[i] == (first + rest)[|first| + i] {
    }
    forall i | 0 <= i < |first| ensures first[i] == (first + rest)[i] {
    }
  }

  /** While the fault flag is up at every tick, an asserted stop publishes zero and its plan waits. */
  lemma {:induction false} FaultFreezesPlan(p: Params, b: Bridge, events: seq<Event>)
    requires p.Acceptable() && b.safeStop && Asserted(events) && FaultAtTicks(p, b, events)
    ensures AllZero(Outputs(p, b, events))
    ensures Run(p, b, events).plan == b.plan && Run(p, b, events).safeStop
    decreases |events|
  {
    if events != [] {
      var k := Step(p, b, events[0]);
      FaultFreezesPlan(p, k, events[1..]);
      AllZeroSplit(if events[0].ControlTick? then [Output(p, b, events[0].now)] else [], Outputs(p, k, events[1..]));
    }
  }

  /** A tick without the flag publishes the first planned speed. */
  lemma {:induction false} MovesWithoutFault(p: Params, b: Bridge, events: seq<Event>)
    requires p.Acceptable() && b.safeStop && Asserted(events)
    requires b.plan != [] && b.plan[0] != 0.0 && !FaultAtTicks(p, b, events)
    ensures !AllZero(Outputs(p, b, events))
    decreases |events|
  {
    var k, e := Step(p, b, events[0]), events[0];
    AllZeroSplit(if e.ControlTick? then [Output(p, b, e.now)] else [], Outputs(p, k, events[1..]));
    if e.ControlTick? && !b.fault {
      assert [Output(p, b, e.now)][0] != ZERO_TWIST;
    } else {
      MovesWithoutFault(p, k, events[1..]);
    }
  }

  /** A stop that plans no movement publishes zero throughout. */
  lemma {:induction false} RestStaysZero(p: Params, b: Bridge, events: seq<Event>)
    requires p.Acceptable() && b.safeStop && Asserted(events)
    requires forall i :: 0 <= i < |b.plan| ==> b.plan[i] == 0.0
    ensures AllZero(Outputs(p, b, events))
    decreases |events|
  {
    if events != [] {
      var k, e := Step(p, b, events[0]), events[0];
      RestStaysZero(p, k, events[1..]);
      AllZeroSplit(if e.ControlTick? then [Output(p, b, e.now)] else [], Outputs(p, k, events[1..]));
    }
  }

  /**
   * With every message an event of its own: from the moment a safe stop is asserted, and as long as it is not
   * withdrawn, every tick publishes zero if and only if the fault flag is up at each of them, or there is nothing to
   * replay because the robot did not move forward or the profile does not fit its buffer.
   */
  lemma StopIsZeroIff(p: Params, b: Bridge, events: seq<Event>)
    requires p.Acceptable() && !b.safeStop && Asserted(events)
    ensures var k := Step(p, b, SafeStop(true));
            AllZero(Outputs(p, k, events)) <==>
              || FaultAtTicks(p, k, events)
              || b.measured <= 0.0
              || PROFILE_CAPACITY <= Smooth.Steps(p.StopFrom(b.measured))
  {
    var k := Step(p, b, SafeStop(true));
    StopPlanFalls(p, b.measured);
    if FaultAtTicks(p, k, events) {
      FaultFreezesPlan(p, k, events);
    } else if b.measured <= 0.0 || PROFILE_CAPACITY <= Smooth.Steps(p.StopFrom(b.measured)) {
      RestStaysZero(p, k, events);
    } else {
      MovesWithoutFault(p, k, events);
    }
  }

  /** While a stop is asserted nothing but its plan, or zero, is published. */
  lemma {:induction false} StaysWithinPlan(p: Params, b: Bridge, events: seq<Event>, top: real)
    requires p.Acceptable() && b.safeStop && Asserted(events) && 0.0 <= top && Falling(b.plan, top)
    ensures forall i :: 0 <= i < |Outputs(p, b, events)| ==> Creeps(Outputs(p, b, events)[i], top)
    decreases |events|
  {
    if events != [] {
      StaysWithinPlan(p, Step(p, b, events[0]), events[1..], top);
    }
  }

  /** Straight ahead, no faster than `top`. */
  predicate Creeps(t: Twist, top: real) {
    t.angular == 0.0 && 0.0 <= t.linear <= top
  }

  predicate NeverRises(out: seq<Twist>) {
    forall i, j :: 0 <= i <= j < |out| ==> out[j].linear <= out[i].linear
  }

  /** A tick that the fault flag holds back from a speed still planned is followed by no tick without the flag. */
  predicate NeverResumes(p: Params, b: Bridge, events: seq<Event>)
    requires p.Acceptable()
    decreases |events|
  {
    events == [] ||
    (var k := Step(p, b, events[0]);
     && (events[0].ControlTick? && b.fault && b.plan != [] && 0.0 < b.plan[0] ==> FaultAtTicks(p, k, events[1..]))
     && NeverResumes(p, k, events[1..]))
  }

  lemma NeverRisesSplit(first: Twist, rest: seq<Twist>)
    ensures NeverRises([first] + rest) <==>
              NeverRises(rest) && forall i :: 0 <= i < |rest| ==> rest[i].linear <= first.linear
  {
    var out := [first] + rest;
    forall i | 0 <= i < |rest| ensures rest[i] == out[i + 1] {
    }
    if NeverRises(out) {
      forall i | 0 <= i < |rest| ensures rest[i].linear <= first.linear {
        assert out[i + 1].linear <= out[0].linear;
      }
      forall i, j | 0 <= i <= j < |rest| ensures rest[j].linear <= rest[i].linear {
        assert out[j + 1].linear <= out[i + 1].linear;
      }
    }
  }

  /** A planned speed that is published is at least as high as all later ones. */
  lemma PlannedTickKeepsFalling(p: Params, b: Bridge, now: u64, rest: seq<Event>)
    requires p.Acceptable() && b.safeStop && !b.fault && b.plan != [] && Falling(b.plan, b.plan[0]) && Asserted(rest)
    ensures var k := OnControlTick(p, b, now);
            NeverRises([Output(p, b, now)] + Outputs(p, k, rest)) <==> NeverRises(Outputs(p, k, rest))
  {
    var k := OnControlTick(p, b, now);
    StaysWithinPlan(p, k, rest, b.plan[0]);
    NeverRisesSplit(Output(p, b, now), Outputs(p, k, rest));
  }

  /** After a tick held back at zero, only zeros keep the speeds from rising. */
  lemma HeldBackTick(p: Params, b: Bridge, now: u64, rest: seq<Event>)
    requires p.Acceptable() && b.safeStop && b.fault && b.plan != [] && 0.0 < b.plan[0] && Asserted(rest)
    requires Falling(b.plan, b.plan[0])
    ensures var k := OnControlTick(p, b, now);
            NeverRises([Output(p, b, now)] + Outputs(p, k, rest)) <==> FaultAtTicks(p, k, rest)
  {
    var k := OnControlTick(p, b, now);
    StaysWithinPlan(p, k, rest, b.plan[0]);
    NeverRisesSplit(Output(p, b, now), Outputs(p, k, rest));
    if FaultAtTicks(p, k, rest) {
      FaultFreezesPlan(p, k, rest);
    } else {
      MovesWithoutFault(p, k, rest);
    }
  }

  lemma {:induction false} FaultAtTicksNeverResumes(p: Params, b: Bridge, events: seq<Event>)
    requires p.Acceptable() && FaultAtTicks(p, b, events)
    ensures NeverResumes(p, b, events)
    decreases |events|
  {
    if events != [] {
      FaultAtTicksNeverResumes(p, Step(p, b, events[0]), events[1..]);
    }
  }

  lemma {:induction false} RestNeverResumes(p: Params, b: Bridge, events: seq<Event>)
    requires p.Acceptable() && b.safeStop && Asserted(events)
    requires forall i :: 0 <= i < |b.plan| ==> b.plan[i] == 0.0
    ensures NeverResumes(p, b, events)
    decreases |events|
  {
    if events != [] {
      RestNeverResumes(p, Step(p, b, events[0]), events[1..]);
    }
  }

  lemma RestTick(p: Params, b: Bridge, now: u64, rest: seq<Event>)
    requires p.Acceptable() && b.safeStop && Asserted(rest)
    requires forall i :: 0 <= i < |b.plan| ==> b.plan[i] == 0.0
    ensures var k := OnControlTick(p, b, now);
            NeverRises([Output(p, b, now)] + Outputs(p, k, rest)) && NeverResumes(p, k, rest)
  {
    var k := OnControlTick(p, b, now);
    RestStaysZero(p, k, rest);
    RestNeverResumes(p, k, rest);
    NeverRisesSplit(Output(p, b, now), Outputs(p, k, rest));
  }

  /** What one tick contributes. */
  lemma TickNeverRisesIff(p: Params, b: Bridge, now: u64, rest: seq<Event>)
    requires p.Acceptable() && b.safeStop && Asserted(rest) && Inv(b)
    requires var k := OnControlTick(p, b, now); NeverRises(Outputs(p, k, rest)) <==> NeverResumes(p, k, rest)
    ensures var k := OnControlTick(p, b, now);
            NeverRises([Output(p, b, now)] + Outputs(p, k, rest)) <==>
              && (b.fault && b.plan != [] && 0.0 < b.plan[0] ==> FaultAtTicks(p, k, rest))
              && NeverResumes(p, k, rest)
  {
    if b.plan == [] || b.plan[0] == 0.0 {
      RestTick(p, b, now, rest);
    } else if b.fault {
      HeldBackTick(p, b, now, rest);
      if FaultAtTicks(p, OnControlTick(p, b, now), rest) {
        FaultAtTicksNeverResumes(p, OnControlTick(p, b, now), rest);
      }
    } else {
      PlannedTickKeepsFalling(p, b, now, rest);
    }
  }

  lemma {:induction false} NeverRisesIff(p: Params, b: Bridge, events: seq<Event>)
    requires p.Acceptable() && b.safeStop && Asserted(events) && Inv(b)
    ensures NeverRises(Outputs(p, b, events)) <==> NeverResumes(p, b, events)
    decreases |events|
  {
    if events != [] {
      var e, rest := events[0], events[1..];
      StepKeeps(p, b, e);
      NeverRisesIff(p, Step(p, b, e), rest);
      if e.ControlTick? {
        TickNeverRisesIff(p, b, e.now, rest);
      } else {
        assert Outputs(p, b, events) == Outputs(p, Step(p, b, e), rest);
      }
    }
  }

  /**
   * From the moment a safe stop is asserted and as long as it is not withdrawn, whatever else arrives: the robot is
   * sent straight ahead, no faster than it was measured, and the speeds never rise if and only if no tick that the
   * fault flag holds back from a planned speed is followed by one without the flag.
   */
  lemma SafeStopStops(p: Params, b: Bridge, events: seq<Event>)
    requires p.Acceptable() && Inv(b) && !b.safeStop && Asserted(events)
    ensures var k := Step(p, b, SafeStop(true));
            var out := Outputs(p, k, events);
            && (forall i :: 0 <= i < |out| ==> Creeps(out[i], Max(0.0, b.measured)))
            && (NeverRises(out) <==> NeverResumes(p, k, events))
  {
    var k := Step(p, b, SafeStop(true));
    StopPlanFalls(p, b.measured);
    StepKeeps(p, b, SafeStop(true));
    StaysWithinPlan(p, k, events, Max(0.0, b.measured));
    NeverRisesIff(p, k, events);
  }

  /** Control ticks that find the fault flag down. */
  function FreeTicks(p: Params, b: Bridge, events: seq<Event>): nat
    requires p.Acceptable()
    decreases |events|
  {
    if events == [] then 0
    else (if events[0].ControlTick? && !b.fault then 1 else 0) + FreeTicks(p, Step(p, b, events[0]), events[1..])
  }

  /** Each of them uses up one planned speed. */
  lemma {:induction false} FreeTicksUsePlan(p: Params, b: Bridge, events: seq<Event>)
    requires p.Acceptable() && b.safeStop && Asserted(events)
    ensures var end, n := Run(p, b, events), FreeTicks(p, b, events);
            && end.safeStop
            && end.plan == if n <= |b.plan| then b.plan[n..] else []
    decreases |events|
  {
    if events != [] {
      FreeTicksUsePlan(p, Step(p, b, events[0]), events[1..]);
    }
  }

  /**
   * Tick by tick: under an asserted stop a tick that finds the fault flag down, after `n` others that did, publishes
   * the speed of sample `n` of the jerk-limited profile from the speed measured at the edge, or zero past its end or
   * when the profile does not fit its buffer.
   */
  lemma ReplaysProfile(p: Params, b: Bridge, events: seq<Event>, now: u64)
    requires p.Acceptable() && !b.safeStop && Asserted(events)
    ensures var k := Step(p, b, SafeStop(true));
            var end, n := Run(p, k, events), FreeTicks(p, k, events);
            var request := StopRequest(Max(0.0, b.measured), p.maxDecel, p.maxJerk, p.period);
            Output(p, end, now) ==
              if !end.fault && Smooth.Steps(request) < 256 && n <= Smooth.Steps(request) then
                Twist(Smooth.Profile(request)[n].speed, 0.0)
              else Twist(0.0, 0.0)
  {
    FreeTicksUsePlan(p, Step(p, b, SafeStop(true)), events);
  }

  /** Once 255 control ticks have found the fault flag down, every later one publishes zero. */
  lemma SafeStopEnds(p: Params, b: Bridge, before: seq<Event>, after: seq<Event>)
    requires p.Acceptable() && !b.safeStop && Asserted(before) && Asserted(after)
    requires PROFILE_CAPACITY <= FreeTicks(p, Step(p, b, SafeStop(true)), before) + 1
    ensures AllZero(Outputs(p, Run(p, Step(p, b, SafeStop(true)), before), after))
  {
    var k := Step(p, b, SafeStop(true));
    StopPlanFalls(p, b.measured);
    FreeTicksUsePlan(p, k, before);
    RestStaysZero(p, Run(p, k, before), after);
  }

  /**
   * A control tick that falls between the two messages that lift a stop, after the fault flag and before the stop
   * flag, starts the old profile: it publishes the speed measured before the stop, whatever arrived in between and
   * however long that lasted.
   */
  lemma SplitDeliveryReplays(p: Params, b: Bridge, events: seq<Event>, now: u64)
    requires p.Acceptable() && !b.safeStop && Asserted(events)
    requires FaultAtTicks(p, Step(p, b, SafeStop(true)), events)
    requires Smooth.Steps(p.StopFrom(b.measured)) < PROFILE_CAPACITY
    ensures var lifted := Step(p, Run(p, Step(p, b, SafeStop(true)), events), State(false));
            Output(p, lifted, now) == Twist(Max(0.0, b.measured), 0.0)
  {
    StopPlanFalls(p, b.measured);
    FaultFreezesPlan(p, Step(p, b, SafeStop(true)), events);
  }

  // ----- the node

  class DriveBridge {
    const params: Params
    const profile: array<TrajectoryPoint>
    var safeStop: bool
    var fault: bool
    var recommended: real
    var recovery: real
    var measured: real
    var nav: Option<Twist>
    var navTime: u64
    var active: bool
    var index: nat
    var count: nat
    var lastPublished: real

    /** The profile index stays inside the buffer. */
    ghost predicate Valid()
      reads this
    {
      params.Acceptable() && profile.Length == PROFILE_CAPACITY && (active ==> index <= count <= PROFILE_CAPACITY)
    }

    ghost function View(): Bridge
      requires Valid()
      reads this, profile
    {
      Bridge(safeStop, fault, recommended, recovery, measured, nav, navTime,
        if active then Speeds(profile[index..count]) else [], lastPublished)
    }

    constructor (params: Params)
      requires params.Acceptable()
      ensures Valid() && fresh(profile) && this.params == params && View() == Initial()
    {
      this.params := params;
      profile := new TrajectoryPoint[PROFILE_CAPACITY](_ => TrajectoryPoint(0.0, 0.0, 0.0, 0.0, 0.0));
      safeStop, fault, active := false, false, false;
      recommended, recovery, measured := UNRESTRICTED, UNRESTRICTED, 0.0;
      nav, navTime, index, count, lastPublished := None, 0, 0, 0, 0.0;
    }

    method NavCommand(cmd: Twist, now: u64)
      requires Valid()
      modifies this`nav, this`navTime
      ensures Valid() && View() == Step(params, old(View()), Nav(cmd, now))
    {
      nav := Some(cmd);
      navTime := now;
    }

    method EnvelopeStatus(zone: byte, limit: real)
      requires Valid()
      modifies this`recommended
      ensures Valid() && View() == Step(params, old(View()), Envelope(zone, limit))
    {
      if zone == 0 {
        recommended := params.maxLinear;
      } else {
        recommended := Max(0.0, limit);
      }
    }

    method SafeStopMessage(asserted: bool)
      requires Valid()
      modifies this`safeStop, this`active, this`index, this`count, profile
      ensures Valid() && View() == Step(params, old(View()), SafeStop(asserted))
    {
      var previous := safeStop;
      safeStop := asserted;
      if asserted && !previous {
        StartJerkLimitedStop();
      }
      if !asserted {
        active := false;
      }
    }

    method StartJerkLimitedStop()
      requires Valid()
      modifies this`active, this`index, this`count, profile
      ensures Valid() && View() == old(View()).(plan := StopPlan(params, old(measured)))
    {
      var ok, n := Smooth.Generate(params.StopFrom(measured), profile, PROFILE_CAPACITY);
      index := 0;
      count := n;
      active := ok && count > 0;
      assert ok ==> profile[index..count] == Smooth.Profile(params.StopFrom(measured));
    }

    method StateMessage(faultLatched: bool)
      requires Valid()
      modifies this`fault
      ensures Valid() && View() == Step(params, old(View()), State(faultLatched))
    {
      fault := faultLatched;
    }

    method OdometryMessage(speed: real)
      requires Valid()
      modifies this`measured
      ensures Valid() && View() == Step(params, old(View()), Odometry(speed))
    {
      measured := speed;
    }

    method RecoverySpeedLimit(limit: real)
      requires Valid()
      modifies this`recovery
      ensures Valid() && View() == Step(params, old(View()), RecoveryLimit(limit))
    {
      recovery := Max(0.0, limit);
    }

    /** Publishes the next speed of the stop profile, if one is left. */
    method ExecuteStopProfile() returns (published: Option<Twist>)
      requires Valid() && safeStop && !fault
      modifies this`index, this`lastPublished
      ensures Valid()
      ensures published == if old(View()).plan == [] then None else Some(Twist(old(View()).plan[0], 0.0))
      ensures View() == if published.None? then old(View())
                        else old(View()).(plan := old(View()).plan[1..], lastPublished := published.value.linear)
    {
      if active && index < count {
        SpeedsTail(profile[index..count]);
        assert profile[index..count][1..] == profile[index + 1..count];
        var cmd := Twist(profile[index].speed, 0.0);
        lastPublished := cmd.linear;
        index := index + 1;
        assert View().plan == old(View()).plan[1..];
        return Some(cmd);
      }
      return None;
    }

    method Tick(now: u64) returns (cmd: Twist)
      requires Valid()
      modifies this`index, this`lastPublished
      ensures Valid() && View() == Step(params, old(View()), ControlTick(now))
      ensures cmd == Output(params, old(View()), now)
    {
      if fault {
        lastPublished := 0.0;
        return ZERO_TWIST;
      }
      if safeStop {
        var published := ExecuteStopProfile();
        if published.Some? {
          return published.value;
        }
        lastPublished := 0.0;
        return ZERO_TWIST;
      }
      if nav.None? || Sub64(now, navTime) > params.freshnessNs {
        lastPublished := 0.0;
        return ZERO_TWIST;
      }
      var limit := Min(Min(params.maxLinear, recommended), recovery);
      cmd := Twist(Clamp(nav.value.linear, -limit, limit),
                   Clamp(nav.value.angular, -params.maxAngular, params.maxAngular));
      lastPublished := cmd.linear;
    }
  }
}
