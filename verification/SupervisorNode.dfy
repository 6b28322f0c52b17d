/**
 * `SafetySupervisorNode`: the callbacks that drive the mode machine, the sensor recovery manager and the speed
 * limit. One callback runs at a time; each clock reading inside a callback is a parameter of its event.
 */
module Supervision {
  import opened Numeric
  import opened ModeMachine
  import opened SpeedLimit
  import Monitor = SafetyMonitor
  import R = SensorRecovery

  const CLEAR: byte := 0
  const WARNING: byte := 1
  const PROTECTIVE: byte := 2
  const EMERGENCY: byte := 3

  const ENVELOPE_BREACHED := 0xE001
  const SENSOR_FAULT := 0xE002
  const RECOVERY_TIMEOUT := 0xE003

  /** Timeouts in nanoseconds. */
  datatype Config = Config(localizationTimeout: u64, sensorTimeout: u64, recoveryTimeout: u64, autoRecover: bool)

  datatype Node = Node(
    machine: Machine,
    clock: Monitor.ClockMemory,
    recovery: R.Recovery,
    limiter: Limiter,
    zone: byte,
    lastOdom: Option<u64>,
    stopRequested: bool)

  datatype Event =
    | Envelope(zone: byte)
    | Odometry(sec: int, nanosec: nat)
    | Health(name: string, status: byte, now: u64, rampNow: u64)
    | Tick(now: u64, nowOdom: u64, nowHealth: u64, order: seq<string>)
    | ClearRequest

  /** What a tick publishes: the recovery limit, then the state message, then the safe-stop flag. */
  datatype Published = Published(limit: real, mode: Mode, faultLatched: bool, zone: byte, stop: bool)

  // ----- the callbacks on values

  /** A header stamp in nanoseconds; a negative second count wraps. */
  function StampNs(sec: int, nanosec: nat): u64 {
    (sec * 1000000000 + nanosec) % U64
  }

  function ForceStop(n: Node, code: nat): Node {
    n.(machine := Transition(Latch(n.machine, code), SafeStop), stopRequested := true)
  }

  function Go(n: Node, target: Mode): Node {
    n.(machine := Transition(n.machine, target))
  }

  function HandleZone(cfg: Config, n: Node): Node {
    if n.zone == CLEAR || n.zone == WARNING then
      if n.machine.mode == AvoidingObstacle && cfg.autoRecover then Go(n, Moving).(stopRequested := false) else n
    else if n.zone == PROTECTIVE then
      if n.machine.mode == Moving then Go(n, AvoidingObstacle) else n
    else if n.zone == EMERGENCY then ForceStop(n, ENVELOPE_BREACHED)
    else n
  }

  function OnEnvelope(cfg: Config, n: Node, zone: byte): Node {
    var seen := n.(zone := zone);
    HandleZone(cfg,
      if n.machine.mode == Idle && zone == CLEAR then Go(seen, Moving).(stopRequested := false) else seen)
  }

  function OnHealth(n: Node, name: string, status: byte, now: u64, rampNow: u64): Node {
    if name == "all" then n.(recovery := n.recovery.(worst := status, lastHealth := Some(now)))
    else
      var known := R.Lookup(n.recovery.sensors, name);
      var sensors := n.recovery.sensors[name := R.Report(known, status, now)];
      var m := n.(recovery := n.recovery.(sensors := sensors));
      match R.ReportTransition(known, status)
      case Unchanged => m
      case BecameDegraded =>
        (if m.machine.mode == Moving then Go(m, Degraded) else m)
        .(recovery := m.recovery.(degradedMode := true), limiter := OnDegraded(m.limiter))
      case Recovered =>
        if R.AnyDegraded(sensors) then m
        else
          (if m.machine.mode == Degraded then Go(m, Moving) else m)
          .(recovery := m.recovery.(degradedMode := false), limiter := OnRecovered(m.limiter, rampNow))
  }

  function OdomAge(n: Node, now: u64): u64
    requires n.lastOdom.Some?
  {
    Sub64(now, n.lastOdom.value)
  }

  function CheckLocalization(cfg: Config, n: Node, now: u64): Node {
    if n.lastOdom.None? then n
    else
      var age := OdomAge(n, now);
      var m := n.(machine :=
        Monitor.Escalate(n.machine, Monitor.AgeSeverity(age, cfg.localizationTimeout), Monitor.LOCALIZATION_LOST));
      if age > cfg.localizationTimeout && m.machine.mode != LocalizationLost && m.machine.mode != SafeStop then
        Go(m, LocalizationLost)
      else m
  }

  /** The health summary is recent enough to act on. */
  predicate SummaryFresh(cfg: Config, n: Node, now: u64) {
    n.recovery.lastHealth.Some? && Sub64(now, n.recovery.lastHealth.value) <= cfg.sensorTimeout
  }

  function CheckSensorHealth(cfg: Config, n: Node, now: u64): Node {
    if n.machine.mode == SafeStop || !SummaryFresh(cfg, n, now) then n
    else if n.recovery.worst == R.FAULT then
      ForceStop(n, SENSOR_FAULT).(recovery := n.recovery.(degradedMode := false))
    else if n.recovery.worst == R.DEGRADED then
      if n.machine.mode == Moving && !n.recovery.degradedMode then
        Go(n, Degraded).(recovery := n.recovery.(degradedMode := true))
      else n
    else if n.recovery.worst == R.HEALTHY && n.recovery.degradedMode && n.machine.mode == Degraded then
      Go(n, Moving).(recovery := n.recovery.(degradedMode := false))
    else n
  }

  function CheckRecoveryTimeouts(cfg: Config, n: Node, now: u64, order: seq<string>): Node {
    if n.machine.mode == SafeStop then n
    else
      var (sensors, name) := R.CheckTimeouts(n.recovery.sensors, order, now, cfg.recoveryTimeout);
      var m := n.(recovery := n.recovery.(sensors := sensors));
      if name == "" then m
      else ForceStop(m, RECOVERY_TIMEOUT).(recovery := m.recovery.(degradedMode := false))
  }

  function UpdateSpeedLimit(n: Node, now: u64): Node {
    n.(limiter := Update(n.limiter, now, n.machine.mode == SafeStop))
  }

  function ObserveClock(n: Node, now: u64): Node {
    n.(machine := Monitor.Escalate(n.machine, Monitor.ClockSeverity(n.clock, now), Monitor.CLOCK_REGRESSION),
       clock := Some(now))
  }

  /** The checks of a tick, up to the one that publishes the limit. */
  function Checks(cfg: Config, n: Node, now: u64, nowOdom: u64, nowHealth: u64, order: seq<string>): Node {
    UpdateSpeedLimit(
      CheckRecoveryTimeouts(cfg,
        CheckSensorHealth(cfg, CheckLocalization(cfg, n, nowOdom), nowHealth),
        now, order),
      now)
  }

  function OnTick(cfg: Config, n: Node, now: u64, nowOdom: u64, nowHealth: u64, order: seq<string>): Node {
    ObserveClock(Checks(cfg, n, now, nowOdom, nowHealth, order), now)
  }

  /** The mode that is published is the one the tick began with. */
  function TickPublishes(before: Node, after: Node): Published {
    Published(after.limiter.current, before.machine.mode, after.machine.latched, after.zone,
      after.stopRequested || before.machine.mode == SafeStop)
  }

  function OnClear(n: Node): Node {
    if n.machine.latched then n.(machine := Clear(n.machine), stopRequested := false) else n
  }

  function Step(cfg: Config, n: Node, e: Event): Node {
    match e
    case Envelope(zone) => OnEnvelope(cfg, n, zone)
    case Odometry(sec, nanosec) => n.(lastOdom := Some(StampNs(sec, nanosec)))
    case Health(name, status, now, rampNow) => OnHealth(n, name, status, now, rampNow)
    case Tick(now, nowOdom, nowHealth, order) => OnTick(cfg, n, now, nowOdom, nowHealth, order)
    case ClearRequest => OnClear(n)
  }

  function Run(cfg: Config, n: Node, events: seq<Event>): Node
    decreases |events|
  {
    if events == [] then n else Run(cfg, Step(cfg, n, events[0]), events[1..])
  }

  function Initial(maxSpeed: real, rampNs: u64): Node {
    Node(Machine(Idle, false, 0), None, R.Recovery(map[], R.UNKNOWN, None, false), Start(maxSpeed, rampNs),
      CLEAR, None, false)
  }

  // ----- what every callback keeps

  predicate Inv(n: Node) {
    && n.machine.Consistent()
    && n.machine.mode != Init && n.machine.mode != Docking
    && (n.stopRequested ==> n.machine.mode == SafeStop)
    && n.limiter.Sound()
    && (R.AnyDegraded(n.recovery.sensors) ==> n.limiter.Halved())
  }

  lemma TimeoutsDegradeNone(sensors: R.Sensors, order: seq<string>, now: u64, timeout: u64)
    ensures R.AnyDegraded(R.CheckTimeouts(sensors, order, now, timeout).0) ==> R.AnyDegraded(sensors)
  {
    var after := R.CheckTimeouts(sensors, order, now, timeout).0;
    if name :| name in after && after[name].status == R.DEGRADED {
      R.CheckTouchesOne(sensors, order, now, timeout, name);
      assert sensors[name].status == R.DEGRADED;
    }
  }

  /** A report that is no transition into degradation leaves no sensor degraded that was not so before. */
  lemma ReportDegradesNone(sensors: R.Sensors, name: string, status: byte, now: u64)
    requires !R.ReportTransition(R.Lookup(sensors, name), status).BecameDegraded?
    ensures R.AnyDegraded(sensors[name := R.Report(R.Lookup(sensors, name), status, now)]) ==> R.AnyDegraded(sensors)
  {
    var after := sensors[name := R.Report(R.Lookup(sensors, name), status, now)];
    if other :| other in after && after[other].status == R.DEGRADED {
      assert other in sensors && sensors[other].status == R.DEGRADED;
    }
  }

  lemma HealthKeeps(n: Node, name: string, status: byte, now: u64, rampNow: u64)
    requires Inv(n)
    ensures Inv(OnHealth(n, name, status, now, rampNow))
  {
    if name != "all" && !R.ReportTransition(R.Lookup(n.recovery.sensors, name), status).BecameDegraded? {
      ReportDegradesNone(n.recovery.sensors, name, status, now);
    }
  }

  lemma LocalizationKeeps(cfg: Config, n: Node, now: u64)
    requires Inv(n)
    ensures Inv(CheckLocalization(cfg, n, now))
  {
  }

  lemma SummaryKeeps(cfg: Config, n: Node, now: u64)
    requires Inv(n)
    ensures Inv(CheckSensorHealth(cfg, n, now))
  {
  }

  lemma TimeoutsKeep(cfg: Config, n: Node, now: u64, order: seq<string>)
    requires Inv(n)
    ensures Inv(CheckRecoveryTimeouts(cfg, n, now, order))
  {
    TimeoutsDegradeNone(n.recovery.sensors, order, now, cfg.recoveryTimeout);
  }

  lemma LimitAndClockKeep(n: Node, now: u64)
    requires Inv(n)
    ensures Inv(ObserveClock(UpdateSpeedLimit(n, now), now))
  {
    UpdateSound(n.limiter, now, n.machine.mode == SafeStop);
  }

  lemma TickKeeps(cfg: Config, n: Node, now: u64, nowOdom: u64, nowHealth: u64, order: seq<string>)
    requires Inv(n)
    ensures Inv(OnTick(cfg, n, now, nowOdom, nowHealth, order))
  {
    var a := CheckLocalization(cfg, n, nowOdom);
    LocalizationKeeps(cfg, n, nowOdom);
    var b := CheckSensorHealth(cfg, a, nowHealth);
    SummaryKeeps(cfg, a, nowHealth);
    TimeoutsKeep(cfg, b, now, order);
    LimitAndClockKeep(CheckRecoveryTimeouts(cfg, b, now, order), now);
  }

  lemma StepKeeps(cfg: Config, n: Node, e: Event)
    requires Inv(n)
    ensures Inv(Step(cfg, n, e))
  {
    match e
    case Health(name, status, now, rampNow) => HealthKeeps(n, name, status, now, rampNow);
    case Tick(now, nowOdom, nowHealth, order) => TickKeeps(cfg, n, now, nowOdom, nowHealth, order);
    case _ =>
  }

  /**
   * Over every sequence of callbacks: SafeStop exactly while a fault is latched; a requested stop means SafeStop;
   * Init and Docking are never entered; the speed limit stays in [0, max], and at most max/2 with no ramp running
   * while any sensor is held to be DEGRADED.
   */
  lemma {:induction false} RunKeeps(cfg: Config, n: Node, events: seq<Event>)
    requires Inv(n)
    ensures Inv(Run(cfg, n, events))
    decreases |events|
  {
    if events != [] {
      StepKeeps(cfg, n, events[0]);
      RunKeeps(cfg, Step(cfg, n, events[0]), events[1..]);
    }
  }

  lemma RunFromStart(cfg: Config, maxSpeed: real, rampNs: u64, events: seq<Event>)
    requires 0.0 < maxSpeed
    ensures Inv(Run(cfg, Initial(maxSpeed, rampNs), events))
  {
    RunKeeps(cfg, Initial(maxSpeed, rampNs), events);
  }

  /** The checks of a tick do not touch the limiter before it is updated. */
  lemma ChecksKeepLimiter(cfg: Config, n: Node, e: Event)
    requires e.Tick?
    ensures var b := CheckSensorHealth(cfg, CheckLocalization(cfg, n, e.nowOdom), e.nowHealth);
            CheckRecoveryTimeouts(cfg, b, e.now, e.order).limiter == n.limiter
  {
    var a := CheckLocalization(cfg, n, e.nowOdom);
    var b := CheckSensorHealth(cfg, a, e.nowHealth);
    assert b.limiter == a.limiter == n.limiter;
  }

  lemma MaximumKept(cfg: Config, n: Node, e: Event)
    ensures Step(cfg, n, e).limiter.maxSpeed == n.limiter.maxSpeed
  {
    if e.Tick? {
      ChecksKeepLimiter(cfg, n, e);
    }
  }

  // ----- leaving SafeStop

  /** SafeStop is left by a clear-fault request and by nothing else; that lands in Idle with the request withdrawn. */
  lemma SafeStopExit(cfg: Config, n: Node, e: Event)
    requires Inv(n) && n.machine.mode == SafeStop
    ensures Step(cfg, n, e).machine.mode != SafeStop <==> e.ClearRequest?
    ensures e.ClearRequest? ==>
              Step(cfg, n, e).machine == Machine(Idle, false, 0) && !Step(cfg, n, e).stopRequested
  {
  }

  lemma {:induction false} SafeStopHolds(cfg: Config, n: Node, events: seq<Event>)
    requires Inv(n) && n.machine.mode == SafeStop && ClearRequest !in events
    ensures Run(cfg, n, events).machine.mode == SafeStop
    decreases |events|
  {
    if events != [] {
      assert events[0] in events;
      SafeStopExit(cfg, n, events[0]);
      StepKeeps(cfg, n, events[0]);
      SafeStopHolds(cfg, Step(cfg, n, events[0]), events[1..]);
    }
  }

  // ----- what a tick decides

  /** The five reasons for a tick to end in SafeStop, as seen before the tick. */
  predicate Stops(cfg: Config, n: Node, e: Event)
    requires e.Tick?
  {
    || n.machine.mode == SafeStop
    || (n.lastOdom.Some? && Monitor.AgeSeverity(OdomAge(n, e.nowOdom), cfg.localizationTimeout).Critical?)
    || (SummaryFresh(cfg, n, e.nowHealth) && n.recovery.worst == R.FAULT)
    || R.CheckTimeouts(n.recovery.sensors, e.order, e.now, cfg.recoveryTimeout).1 != ""
    || Monitor.ClockSeverity(n.clock, e.now).Critical?
  }

  lemma LocalizationStopsIff(cfg: Config, n: Node, now: u64)
    requires Inv(n)
    ensures var a := CheckLocalization(cfg, n, now);
            && (a.machine.mode == SafeStop <==>
                  n.machine.mode == SafeStop
                  || (n.lastOdom.Some? && Monitor.AgeSeverity(OdomAge(n, now), cfg.localizationTimeout).Critical?))
            && a.recovery == n.recovery && a.clock == n.clock
  {
  }

  lemma SummaryStopsIff(cfg: Config, n: Node, now: u64)
    ensures var b := CheckSensorHealth(cfg, n, now);
            && (b.machine.mode == SafeStop <==>
                  n.machine.mode == SafeStop || (SummaryFresh(cfg, n, now) && n.recovery.worst == R.FAULT))
            && b.recovery.sensors == n.recovery.sensors && b.clock == n.clock
  {
  }

  lemma TimeoutStopsIff(cfg: Config, n: Node, now: u64, order: seq<string>)
    ensures var c := CheckRecoveryTimeouts(cfg, n, now, order);
            && (c.machine.mode == SafeStop <==>
                  n.machine.mode == SafeStop
                  || R.CheckTimeouts(n.recovery.sensors, order, now, cfg.recoveryTimeout).1 != "")
            && c.clock == n.clock
  {
  }

  /** Which ticks end in SafeStop, whatever the checks before the decisive one did to the node. */
  lemma TickStopsIff(cfg: Config, n: Node, e: Event)
    requires Inv(n) && e.Tick?
    ensures Step(cfg, n, e).machine.mode == SafeStop <==> Stops(cfg, n, e)
  {
    var a := CheckLocalization(cfg, n, e.nowOdom);
    var b := CheckSensorHealth(cfg, a, e.nowHealth);
    LocalizationStopsIff(cfg, n, e.nowOdom);
    SummaryStopsIff(cfg, a, e.nowHealth);
    TimeoutStopsIff(cfg, b, e.now, e.order);
  }

  predicate LostOrStopped(m: Machine) {
    m.mode == LocalizationLost || m.mode == SafeStop
  }

  lemma StaleOdometryLoses(cfg: Config, n: Node, now: u64)
    requires Inv(n) && 0 < cfg.localizationTimeout && n.lastOdom.Some? && cfg.localizationTimeout < OdomAge(n, now)
    ensures LostOrStopped(CheckLocalization(cfg, n, now).machine)
  {
  }

  lemma LaterChecksKeepLost(cfg: Config, n: Node, e: Event)
    requires LostOrStopped(n.machine) && e.Tick?
    ensures LostOrStopped(CheckSensorHealth(cfg, n, e.nowHealth).machine)
    ensures LostOrStopped(CheckRecoveryTimeouts(cfg, n, e.now, e.order).machine)
    ensures LostOrStopped(ObserveClock(UpdateSpeedLimit(n, e.now), e.now).machine)
  {
  }

  lemma LostTick(cfg: Config, n: Node, e: Event)
    requires e.Tick? && LostOrStopped(CheckLocalization(cfg, n, e.nowOdom).machine)
    ensures LostOrStopped(Step(cfg, n, e).machine)
  {
    var a := CheckLocalization(cfg, n, e.nowOdom);
    var b := CheckSensorHealth(cfg, a, e.nowHealth);
    LaterChecksKeepLost(cfg, a, e);
    LaterChecksKeepLost(cfg, b, e);
    LaterChecksKeepLost(cfg, CheckRecoveryTimeouts(cfg, b, e.now, e.order), e);
  }

  /** A tick that sees odometry older than a positive timeout ends in LocalizationLost, or in SafeStop for cause. */
  lemma StaleOdometryTick(cfg: Config, n: Node, e: Event)
    requires Inv(n) && e.Tick? && 0 < cfg.localizationTimeout
    requires n.lastOdom.Some? && cfg.localizationTimeout < OdomAge(n, e.nowOdom)
    ensures Step(cfg, n, e).machine.mode == if Stops(cfg, n, e) then SafeStop else LocalizationLost
  {
    TickStopsIff(cfg, n, e);
    StaleOdometryLoses(cfg, n, e.nowOdom);
    LostTick(cfg, n, e);
  }

  /** No callback recovers localization: LocalizationLost is left only for SafeStop, however fresh odometry becomes. */
  lemma LostOnlyToSafeStop(cfg: Config, n: Node, e: Event)
    requires Inv(n) && n.machine.mode == LocalizationLost
    ensures LostOrStopped(Step(cfg, n, e).machine)
  {
    if e.Tick? {
      LostTick(cfg, n, e);
    }
  }

  lemma {:induction false} LostHolds(cfg: Config, n: Node, events: seq<Event>)
    requires Inv(n) && LostOrStopped(n.machine) && ClearRequest !in events
    ensures LostOrStopped(Run(cfg, n, events).machine)
    decreases |events|
  {
    if events != [] {
      assert events[0] in events;
      StepKeeps(cfg, n, events[0]);
      if n.machine.mode == SafeStop {
        SafeStopExit(cfg, n, events[0]);
      } else {
        LostOnlyToSafeStop(cfg, n, events[0]);
      }
      LostHolds(cfg, Step(cfg, n, events[0]), events[1..]);
    }
  }

  // ----- the limit after a stop

  predicate Grounded(l: Limiter) {
    l.current == 0.0 && l.target == 0.0 && l.rampStart.None?
  }

  /** A report that a sensor became degraded, or that the last degraded one recovered. */
  predicate Lifts(n: Node, e: Event) {
    && e.Health? && e.name != "all"
    && var known := R.Lookup(n.recovery.sensors, e.name);
       match R.ReportTransition(known, e.status)
       case Unchanged => false
       case BecameDegraded => true
       case Recovered => !R.AnyDegraded(n.recovery.sensors[e.name := R.Report(known, e.status, e.now)])
  }

  /** A limit of zero stays as it is exactly through the events that lift nothing. */
  lemma GroundedUntilLifted(cfg: Config, n: Node, e: Event)
    requires Grounded(n.limiter) && 0.0 < n.limiter.maxSpeed
    ensures Grounded(Step(cfg, n, e).limiter) <==> !Lifts(n, e)
  {
    if e.Tick? {
      ChecksKeepLimiter(cfg, n, e);
    }
  }

  predicate NeverLifts(cfg: Config, n: Node, events: seq<Event>)
    decreases |events|
  {
    events == [] || (!Lifts(n, events[0]) && NeverLifts(cfg, Step(cfg, n, events[0]), events[1..]))
  }

  /** The limiter is grounded after each event of the run. */
  predicate StaysGrounded(cfg: Config, n: Node, events: seq<Event>)
    decreases |events|
  {
    events == [] ||
    (Grounded(Step(cfg, n, events[0]).limiter) && StaysGrounded(cfg, Step(cfg, n, events[0]), events[1..]))
  }

  lemma {:induction false} GroundedHoldsIff(cfg: Config, n: Node, events: seq<Event>)
    requires Grounded(n.limiter) && 0.0 < n.limiter.maxSpeed
    ensures StaysGrounded(cfg, n, events) <==> NeverLifts(cfg, n, events)
    ensures NeverLifts(cfg, n, events) ==> Grounded(Run(cfg, n, events).limiter)
    decreases |events|
  {
    if events != [] {
      GroundedUntilLifted(cfg, n, events[0]);
      MaximumKept(cfg, n, events[0]);
      if !Lifts(n, events[0]) {
        GroundedHoldsIff(cfg, Step(cfg, n, events[0]), events[1..]);
      }
    }
  }

  lemma StopTickGrounds(cfg: Config, n: Node, tick: Event)
    requires Inv(n) && n.machine.mode == SafeStop && tick.Tick?
    ensures Grounded(Step(cfg, n, tick).limiter)
  {
  }

  /**
   * A tick in SafeStop takes the speed limit to zero, and clearing the fault does not bring it back: it stays zero,
   * with nothing under way that would raise it, exactly as long as no sensor becomes degraded and no recovery is the
   * last one outstanding.
   */
  lemma LimitStaysZero(cfg: Config, n: Node, tick: Event, events: seq<Event>)
    requires Inv(n) && n.machine.mode == SafeStop && tick.Tick? && 0.0 < n.limiter.maxSpeed
    ensures StaysGrounded(cfg, Step(cfg, n, tick), events) <==> NeverLifts(cfg, Step(cfg, n, tick), events)
    ensures NeverLifts(cfg, Step(cfg, n, tick), events) ==>
              Run(cfg, Step(cfg, n, tick), events).limiter.current == 0.0
  {
    StopTickGrounds(cfg, n, tick);
    MaximumKept(cfg, n, tick);
    GroundedHoldsIff(cfg, Step(cfg, n, tick), events);
  }

  /** On the way to at least half of the maximum. */
  predicate Lifted(l: Limiter) {
    l.target == l.maxSpeed * 0.5 || l.target == l.maxSpeed
  }

  lemma UpdateLifted(l: Limiter, now: u64)
    requires l.Sound() && Lifted(l)
    ensures l.maxSpeed * 0.5 <= Update(l, now, false).current
  {
    if l.rampStart.Some? && Sub64(now, l.rampStart.value) < l.rampNs {
      RampOrder(l, Sub64(now, l.rampStart.value), Sub64(now, l.rampStart.value));
    }
  }

  predicate NoTick(events: seq<Event>) {
    forall e :: e in events ==> !e.Tick?
  }

  lemma {:induction false} LiftedHolds(cfg: Config, n: Node, events: seq<Event>)
    requires Inv(n) && Lifted(n.limiter) && NoTick(events)
    ensures Inv(Run(cfg, n, events)) && Lifted(Run(cfg, n, events).limiter)
    ensures Run(cfg, n, events).limiter.maxSpeed == n.limiter.maxSpeed
    decreases |events|
  {
    if events != [] {
      assert events[0] in events;
      StepKeeps(cfg, n, events[0]);
      MaximumKept(cfg, n, events[0]);
      LiftedHolds(cfg, Step(cfg, n, events[0]), events[1..]);
    }
  }

  /** The limit comes back with the first tick after a lifting event, if that tick ends outside SafeStop. */
  lemma LiftReturnsLimit(cfg: Config, n: Node, lift: Event, events: seq<Event>, tick: Event)
    requires Inv(n) && Lifts(n, lift) && NoTick(events) && tick.Tick?
    requires Step(cfg, Run(cfg, Step(cfg, n, lift), events), tick).machine.mode != SafeStop
    ensures n.limiter.maxSpeed * 0.5 <= Step(cfg, Run(cfg, Step(cfg, n, lift), events), tick).limiter.current
  {
    StepKeeps(cfg, n, lift);
    LiftedHolds(cfg, Step(cfg, n, lift), events);
    TickUpdates(cfg, Run(cfg, Step(cfg, n, lift), events), tick);
    UpdateLifted(Run(cfg, Step(cfg, n, lift), events).limiter, tick.now);
  }

  /** A tick that does not end in SafeStop updates the limiter as in normal operation. */
  lemma TickUpdates(cfg: Config, n: Node, e: Event)
    requires Inv(n) && e.Tick? && Step(cfg, n, e).machine.mode != SafeStop
    ensures Step(cfg, n, e).limiter == Update(n.limiter, e.now, false)
  {
    ChecksKeepLimiter(cfg, n, e);
    var b := CheckSensorHealth(cfg, CheckLocalization(cfg, n, e.nowOdom), e.nowHealth);
    assert CheckRecoveryTimeouts(cfg, b, e.now, e.order).machine.mode != SafeStop;
  }

  // ----- what a tick tells the drive bridge

  /** The fault flag tells exactly whether the tick ended in SafeStop, and a stop is never published without it. */
  lemma TickPublishesFault(cfg: Config, n: Node, e: Event)
    requires Inv(n) && e.Tick?
    ensures var after := Step(cfg, n, e);
            var p := TickPublishes(n, after);
            && (p.faultLatched <==> after.machine.mode == SafeStop)
            && (p.stop ==> p.faultLatched)
            && p.limit == after.limiter.current
  {
    StepKeeps(cfg, n, e);
    TickStopsIff(cfg, n, e);
  }

  // ----- what each callback decides

  /** What an envelope message does to the mode, from every state, by its zone. */
  lemma EnvelopeDecides(cfg: Config, n: Node, zone: byte)
    requires Inv(n)
    ensures var k := Step(cfg, n, Envelope(zone));
            && k == n.(zone := zone, machine := k.machine, stopRequested := k.stopRequested)
            && (zone == 3 ==> k.machine == Machine(SafeStop, true, 0xE001) && k.stopRequested)
            && (zone != 3 ==>
                  && k.stopRequested == n.stopRequested
                  && k.machine == n.machine.(mode :=
                       if zone == 0 && n.machine.mode == Idle then Moving
                       else if zone <= 1 && n.machine.mode == AvoidingObstacle && cfg.autoRecover then Moving
                       else if zone == 2 && n.machine.mode == Moving then AvoidingObstacle
                       else n.machine.mode))
  {
  }

  /** An odometry stamp in nanoseconds, modulo 2^64; nothing else changes. */
  lemma OdometryDecides(cfg: Config, n: Node, sec: int, nanosec: nat)
    ensures Step(cfg, n, Odometry(sec, nanosec)) == n.(lastOdom := Some((sec * 1000000000 + nanosec) % U64))
  {
  }

  /** A clear-fault request without a fault does nothing. */
  lemma ClearDecides(cfg: Config, n: Node)
    ensures Step(cfg, n, ClearRequest) ==
              if n.machine.latched then n.(machine := Machine(Idle, false, 0), stopRequested := false) else n
  {
  }

  /** A sensor other than `name` is held to be DEGRADED. */
  predicate OtherDegraded(sensors: R.Sensors, name: string) {
    exists other :: other in sensors && other != name && sensors[other].status == 2
  }

  lemma AnyDegradedAfter(sensors: R.Sensors, name: string, info: R.SensorInfo)
    ensures R.AnyDegraded(sensors[name := info]) <==> info.status == 2 || OtherDegraded(sensors, name)
  {
    var after := sensors[name := info];
    if info.status == 2 {
      assert name in after && after[name].status == 2;
    }
    if OtherDegraded(sensors, name) {
      var other :| other in sensors && other != name && sensors[other].status == 2;
      assert other in after && after[other].status == 2;
    }
  }

  /** A report that a sensor is DEGRADED, unless it already is held to be or has timed out. */
  predicate NewlyDegraded(n: Node, name: string, status: byte) {
    status == 2 && (name in n.recovery.sensors ==>
      n.recovery.sensors[name].status != 2 && !n.recovery.sensors[name].timedOut)
  }

  /** A report that the last sensor held to be DEGRADED is HEALTHY. */
  predicate LastRecovered(n: Node, name: string, status: byte) {
    && status == 1 && name in n.recovery.sensors && n.recovery.sensors[name].status == 2
    && !OtherDegraded(n.recovery.sensors, name)
  }

  /** A summary is remembered; the report of one sensor slows the robot down, lets it recover, or does neither. */
  lemma HealthDecides(cfg: Config, n: Node, name: string, status: byte, now: u64, rampNow: u64)
    requires Inv(n)
    ensures var k, m := Step(cfg, n, Health(name, status, now, rampNow)), n.limiter.maxSpeed;
            var mode := n.machine.mode;
            if name == "all" then
              k == n.(recovery := n.recovery.(worst := status, lastHealth := Some(now)))
            else
              var sensors := n.recovery.sensors[name := R.Report(R.Lookup(n.recovery.sensors, name), status, now)];
              var slower, faster := NewlyDegraded(n, name, status), LastRecovered(n, name, status);
              && k == n.(machine := k.machine, recovery := k.recovery, limiter := k.limiter)
              && k.machine == n.machine.(mode :=
                   if slower && mode == Moving then Degraded else if faster && mode == Degraded then Moving else mode)
              && k.recovery == n.recovery.(sensors := sensors,
                   degradedMode := if slower then true else if faster then false else n.recovery.degradedMode)
              && k.limiter == (if slower then Limiter(m, m * 0.5, m * 0.5, n.limiter.rampNs, None)
                               else if faster then n.limiter.(target := m, rampStart := Some(rampNow))
                               else n.limiter)
  {
    if name != "all" {
      R.ReportDecides(R.Lookup(n.recovery.sensors, name), status, now);
      AnyDegradedAfter(n.recovery.sensors, name, R.Report(R.Lookup(n.recovery.sensors, name), status, now));
    }
  }

  /** Odometry is older than the timeout. */
  predicate OdometryStale(cfg: Config, n: Node, now: u64) {
    n.lastOdom.Some? && cfg.localizationTimeout < (now - n.lastOdom.value) % U64
  }

  /** Odometry is older than a positive timeout, and not younger than twice it, modulo 2^64. */
  predicate OdometryLost(cfg: Config, n: Node, now: u64) {
    && OdometryStale(cfg, n, now) && 0 < cfg.localizationTimeout
    && (2 * cfg.localizationTimeout) % U64 <= (now - n.lastOdom.value) % U64
  }

  /** A summary no older than the sensor timeout reports `status`. */
  predicate Reported(cfg: Config, n: Node, now: u64, status: byte) {
    && n.recovery.lastHealth.Some? && (now - n.recovery.lastHealth.value) % U64 <= cfg.sensorTimeout
    && n.recovery.worst == status
  }

  /** The timeout check of a tick names a sensor. */
  predicate NamesOverdue(cfg: Config, n: Node, e: Event)
    requires e.Tick?
  {
    R.CheckTimeouts(n.recovery.sensors, e.order, e.now, cfg.recoveryTimeout).1 != ""
  }

  predicate ClockWentBack(n: Node, now: u64) {
    n.clock.Some? && now < n.clock.value
  }

  /** A tick stops the robot before its clock is looked at. */
  predicate StopsEarly(cfg: Config, n: Node, e: Event)
    requires e.Tick?
  {
    || n.machine.mode == SafeStop
    || OdometryLost(cfg, n, e.nowOdom)
    || Reported(cfg, n, e.nowHealth, 3)
    || NamesOverdue(cfg, n, e)
  }

  lemma StopsByThreshold(cfg: Config, n: Node, e: Event)
    requires e.Tick?
    ensures Stops(cfg, n, e) <==> StopsEarly(cfg, n, e) || ClockWentBack(n, e.now)
  {
  }

  lemma LocalizationDecides(cfg: Config, n: Node, now: u64)
    requires Inv(n)
    ensures var k := CheckLocalization(cfg, n, now);
            && k == n.(machine := k.machine)
            && k.machine ==
                 if OdometryLost(cfg, n, now) then Machine(SafeStop, true, 1002)
                 else if OdometryStale(cfg, n, now) && n.machine.mode != SafeStop
                         && (0 < cfg.localizationTimeout || n.machine.mode in {Moving, Degraded}) then
                   n.machine.(mode := LocalizationLost)
                 else n.machine
  {
  }

  lemma SummaryDecides(cfg: Config, n: Node, now: u64)
    requires Inv(n)
    ensures var k, mode := CheckSensorHealth(cfg, n, now), n.machine.mode;
            var slower := Reported(cfg, n, now, 2) && mode == Moving && !n.recovery.degradedMode;
            var faster := Reported(cfg, n, now, 1) && mode == Degraded && n.recovery.degradedMode;
            if mode != SafeStop && Reported(cfg, n, now, 3) then
              k == n.(machine := Machine(SafeStop, true, 0xE002), stopRequested := true,
                      recovery := n.recovery.(degradedMode := false))
            else
              k == n.(machine := n.machine.(mode := if slower then Degraded else if faster then Moving else mode),
                      recovery := n.recovery.(degradedMode :=
                        if slower then true else if faster then false else n.recovery.degradedMode))
  {
  }

  /** Where a tick that stops the robot for none of its reasons leaves the mode. */
  lemma TickModeDecides(cfg: Config, n: Node, e: Event)
    requires Inv(n) && e.Tick? && !StopsEarly(cfg, n, e) && !ClockWentBack(n, e.now)
    ensures var k, mode := Step(cfg, n, e), n.machine.mode;
            var lost := OdometryStale(cfg, n, e.nowOdom)
              && (0 < cfg.localizationTimeout || mode in {Moving, Degraded});
            var slower := Reported(cfg, n, e.nowHealth, 2) && mode == Moving && !n.recovery.degradedMode;
            var faster := Reported(cfg, n, e.nowHealth, 1) && mode == Degraded && n.recovery.degradedMode;
            && k.machine == n.machine.(mode :=
                 if lost then LocalizationLost else if slower then Degraded else if faster then Moving else mode)
            && k.stopRequested == n.stopRequested
            && k.recovery.degradedMode ==
                 (if lost then n.recovery.degradedMode
                  else if slower then true else if faster then false else n.recovery.degradedMode)
  {
    var a := CheckLocalization(cfg, n, e.nowOdom);
    LocalizationDecides(cfg, n, e.nowOdom);
    LocalizationKeeps(cfg, n, e.nowOdom);
    SummaryDecides(cfg, a, e.nowHealth);
  }

  /** Which fault a tick leaves latched, and when it requests a stop. */
  lemma TickFaultDecides(cfg: Config, n: Node, e: Event)
    requires Inv(n) && e.Tick? && (StopsEarly(cfg, n, e) || ClockWentBack(n, e.now))
    ensures var k := Step(cfg, n, e);
            var lost := OdometryLost(cfg, n, e.nowOdom);
            var asked := n.machine.mode != SafeStop && !lost
              && (Reported(cfg, n, e.nowHealth, 3) || NamesOverdue(cfg, n, e));
            && k.machine == Machine(SafeStop, true,
                 if ClockWentBack(n, e.now) then 1001
                 else if lost then 1002
                 else if n.machine.mode == SafeStop then n.machine.faultCode
                 else if Reported(cfg, n, e.nowHealth, 3) then 0xE002
                 else 0xE003)
            && k.stopRequested == (n.stopRequested || asked)
  {
    var a := CheckLocalization(cfg, n, e.nowOdom);
    var b := CheckSensorHealth(cfg, a, e.nowHealth);
    LocalizationDecides(cfg, n, e.nowOdom);
    LocalizationKeeps(cfg, n, e.nowOdom);
    SummaryDecides(cfg, a, e.nowHealth);
    SummaryKeeps(cfg, a, e.nowHealth);
    TimeoutStopsIff(cfg, b, e.now, e.order);
  }

  /** What a tick does to everything else: limit, clock and sensor records. */
  lemma TickRestDecides(cfg: Config, n: Node, e: Event)
    requires Inv(n) && e.Tick?
    ensures var k, l := Step(cfg, n, e), n.limiter;
            && k.limiter == (if StopsEarly(cfg, n, e) then Limiter(l.maxSpeed, 0.0, 0.0, l.rampNs, None)
                             else Update(l, e.now, false))
            && k.clock == Some(e.now) && k.zone == n.zone && k.lastOdom == n.lastOdom
            && k.recovery.worst == n.recovery.worst && k.recovery.lastHealth == n.recovery.lastHealth
            && k.recovery.sensors ==
                 (if n.machine.mode == SafeStop || OdometryLost(cfg, n, e.nowOdom) || Reported(cfg, n, e.nowHealth, 3)
                  then n.recovery.sensors
                  else R.CheckTimeouts(n.recovery.sensors, e.order, e.now, cfg.recoveryTimeout).0)
  {
    var a := CheckLocalization(cfg, n, e.nowOdom);
    var b := CheckSensorHealth(cfg, a, e.nowHealth);
    LocalizationDecides(cfg, n, e.nowOdom);
    LocalizationKeeps(cfg, n, e.nowOdom);
    SummaryDecides(cfg, a, e.nowHealth);
    TimeoutStopsIff(cfg, b, e.now, e.order);
    ChecksKeepLimiter(cfg, n, e);
  }

  /** What a tick publishes: the mode it began with, and the limit, flags and zone it ends with. */
  lemma PublishedDecides(cfg: Config, n: Node, e: Event)
    requires Inv(n) && e.Tick?
    ensures var k := Step(cfg, n, e);
            TickPublishes(n, k)
              == Published(k.limiter.current, n.machine.mode, k.machine.mode == SafeStop, n.zone,
                   n.machine.mode == SafeStop || k.stopRequested)
  {
    TickPublishesFault(cfg, n, e);
    TickRestDecides(cfg, n, e);
  }

  // ----- the node

  class SupervisorNode {
    const config: Config
    const machine: ModeStateMachine
    const monitor: Monitor.SafetySupervisor
    const recovery: R.SensorRecoveryManager
    const limiter: SpeedLimitController
    var zone: byte
    var lastOdom: Option<u64>
    var stopRequested: bool

    ghost predicate Valid()
      reads this, monitor
    {
      monitor.machine == machine
    }

    function View(): Node
      reads this, machine, monitor, recovery, limiter
    {
      Node(machine.View(), monitor.Clock(), recovery.View(), limiter.View(), zone, lastOdom, stopRequested)
    }

    /** `maxSpeed` is positive: the node refuses to start otherwise. */
    constructor (config: Config, maxSpeed: real, rampNs: u64)
      requires 0.0 < maxSpeed
      ensures Valid() && View() == Initial(maxSpeed, rampNs) && Inv(View()) && this.config == config
    {
      this.config := config;
      var m := new ModeStateMachine();
      machine := m;
      monitor := new Monitor.SafetySupervisor(m);
      recovery := new R.SensorRecoveryManager();
      limiter := new SpeedLimitController(maxSpeed, rampNs);
      zone, lastOdom, stopRequested := CLEAR, None, false;
      new;
      var _ := machine.TransitionTo(Idle);
    }

    method StopNow(code: nat)
      modifies machine, this`stopRequested
      ensures machine.View() == Transition(Latch(old(machine.View()), code), SafeStop) && stopRequested
    {
      var _ := machine.LatchFault(code);
      var _ := machine.TransitionTo(SafeStop);
      stopRequested := true;
    }

    method HandleZoneTransition()
      modifies machine, this`stopRequested
      ensures View() == HandleZone(config, old(View()))
    {
      if zone == CLEAR || zone == WARNING {
        if machine.mode == AvoidingObstacle && config.autoRecover {
          var _ := machine.TransitionTo(Moving);
          stopRequested := false;
        }
      } else if zone == PROTECTIVE {
        if machine.mode == Moving {
          var _ := machine.RequestObstacleHold();
        }
      } else if zone == EMERGENCY {
        StopNow(ENVELOPE_BREACHED);
      }
    }

    method EnvelopeMessage(newZone: byte)
      modifies machine, this`zone, this`stopRequested
      ensures View() == OnEnvelope(config, old(View()), newZone)
    {
      zone := newZone;
      if machine.mode == Idle && zone == CLEAR {
        var _ := machine.TransitionTo(Moving);
        stopRequested := false;
      }
      HandleZoneTransition();
    }

    method OdometryMessage(sec: int, nanosec: nat)
      modifies this`lastOdom
      ensures View() == old(View()).(lastOdom := Some(StampNs(sec, nanosec)))
    {
      lastOdom := Some(StampNs(sec, nanosec));
    }

    method HealthMessage(name: string, status: byte, now: u64, rampNow: u64)
      modifies machine, recovery, limiter
      ensures View() == OnHealth(old(View()), name, status, now, rampNow)
    {
      if name == "all" {
        recovery.UpdateSummary(status, now);
        return;
      }
      var transition := recovery.ProcessHealth(name, status, now);
      if transition == R.BecameDegraded {
        if machine.mode == Moving {
          var _ := machine.TransitionTo(Degraded);
        }
        recovery.SetDegradedMode(true);
        limiter.Degrade();
      } else if transition == R.Recovered {
        var others := recovery.IsAnyDegraded();
        if !others {
          if machine.mode == Degraded {
            var _ := machine.TransitionTo(Moving);
          }
          recovery.SetDegradedMode(false);
          limiter.Recover(rampNow);
        }
      }
    }

    method CheckLocalizationStaleness(now: u64)
      requires Valid()
      modifies machine
      ensures View() == CheckLocalization(config, old(View()), now)
    {
      if lastOdom.None? {
        return;
      }
      var age := Sub64(now, lastOdom.value);
      var _ := monitor.ObserveLocalizationAge(age, config.localizationTimeout);
      if age > config.localizationTimeout && machine.mode != LocalizationLost && machine.mode != SafeStop {
        var _ := machine.ReportLocalizationLost();
      }
    }

    method CheckHealthSummary(now: u64)
      modifies machine, recovery`degradedMode, this`stopRequested
      ensures View() == CheckSensorHealth(config, old(View()), now)
    {
      if machine.mode == SafeStop || recovery.lastHealth.None? {
        return;
      }
      if Sub64(now, recovery.lastHealth.value) > config.sensorTimeout {
        return;
      }
      if recovery.worst == R.FAULT {
        StopNow(SENSOR_FAULT);
        recovery.SetDegradedMode(false);
      } else if recovery.worst == R.DEGRADED {
        if machine.mode == Moving && !recovery.degradedMode {
          var _ := machine.TransitionTo(Degraded);
          recovery.SetDegradedMode(true);
        }
      } else if recovery.worst == R.HEALTHY && recovery.degradedMode {
        if machine.mode == Degraded {
          var _ := machine.TransitionTo(Moving);
          recovery.SetDegradedMode(false);
        }
      }
    }

    method CheckSensorRecoveryTimeouts(now: u64, order: seq<string>)
      modifies machine, recovery, this`stopRequested
      ensures View() == CheckRecoveryTimeouts(config, old(View()), now, order)
    {
      if machine.mode == SafeStop {
        return;
      }
      var name := recovery.CheckForTimeouts(now, config.recoveryTimeout, order);
      if name != "" {
        StopNow(RECOVERY_TIMEOUT);
        recovery.SetDegradedMode(false);
      }
    }

    /** `order` is the order in which this tick walks the table of sensors. */
    method TimerTick(now: u64, nowOdom: u64, nowHealth: u64, order: seq<string>) returns (p: Published)
      requires Valid()
      modifies this, machine, monitor, recovery, limiter
      ensures Valid()
      ensures View() == OnTick(config, old(View()), now, nowOdom, nowHealth, order)
      ensures p == TickPublishes(old(View()), View())
    {
      var currentMode := machine.mode;
      CheckLocalizationStaleness(nowOdom);
      CheckHealthSummary(nowHealth);
      CheckSensorRecoveryTimeouts(now, order);
      var limit := limiter.UpdateLimit(now, machine.mode == SafeStop);
      var _ := monitor.ObserveClockSample(now);
      p := Published(limit, currentMode, machine.latched, zone, stopRequested || currentMode == SafeStop);
    }

    method ClearFaultRequest() returns (success: bool)
      modifies machine, this`stopRequested
      ensures View() == OnClear(old(View())) && success == old(machine.latched)
    {
      var r := machine.ClearFault();
      if r == Ok {
        stopRequested := false;
      }
      return r == Ok;
    }
  }
}
