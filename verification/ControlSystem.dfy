/**
 * The supervisor node and the drive bridge together. A supervisor tick sends three messages, one on each topic: the
 * recovery limit, the state with its fault flag, and the safe-stop flag. Each is received by an event of its own, so
 * any other events may fall in between. A topic keeps its messages in order, but may lose some.
 */
module ControlSystem {
  import opened Numeric
  import Modes = ModeMachine
  import S = Supervision
  import B = DriveBridging
  import R = SensorRecovery

  /** `sent` holds what every tick published; each counter tells how far the bridge has got on that topic. */
  datatype System = System(
    node: S.Node,
    bridge: B.Bridge,
    sent: seq<S.Published>,
    limitsSeen: nat,
    flagsSeen: nat,
    stopsSeen: nat)

  /** Supervisor callbacks, receptions of what tick `i` sent, and what reaches the bridge from elsewhere. */
  datatype Event =
    | Callback(e: S.Event)
    | ReceiveLimit(i: nat)
    | ReceiveState(i: nat)
    | ReceiveStop(i: nat)
    | Local(b: B.Event)

  predicate Possible(s: System, e: Event) {
    match e
    case Callback(_) => true
    case ReceiveLimit(i) => s.limitsSeen <= i < |s.sent|
    case ReceiveState(i) => s.flagsSeen <= i < |s.sent|
    case ReceiveStop(i) => s.stopsSeen <= i < |s.sent|
    case Local(b) => b.Nav? || b.Envelope? || b.Odometry? || b.ControlTick?
  }

  function Step(cfg: S.Config, p: B.Params, s: System, e: Event): System
    requires p.Acceptable() && Possible(s, e)
  {
    match e
    case Callback(c) =>
      var node := S.Step(cfg, s.node, c);
      s.(node := node, sent := if c.Tick? then s.sent + [S.TickPublishes(s.node, node)] else s.sent)
    case ReceiveLimit(i) =>
      s.(bridge := B.Step(p, s.bridge, B.RecoveryLimit(s.sent[i].limit)), limitsSeen := i + 1)
    case ReceiveState(i) =>
      s.(bridge := B.Step(p, s.bridge, B.State(s.sent[i].faultLatched)), flagsSeen := i + 1)
    case ReceiveStop(i) =>
      s.(bridge := B.Step(p, s.bridge, B.SafeStop(s.sent[i].stop)), stopsSeen := i + 1)
    case Local(b) => s.(bridge := B.Step(p, s.bridge, b))
  }

  predicate IsRun(cfg: S.Config, p: B.Params, s: System, events: seq<Event>)
    requires p.Acceptable()
    decreases |events|
  {
    events == [] || (Possible(s, events[0]) && IsRun(cfg, p, Step(cfg, p, s, events[0]), events[1..]))
  }

  function Run(cfg: S.Config, p: B.Params, s: System, events: seq<Event>): System
    requires p.Acceptable() && IsRun(cfg, p, s, events)
    decreases |events|
  {
    if events == [] then s else Run(cfg, p, Step(cfg, p, s, events[0]), events[1..])
  }

  function Initial(maxSpeed: real, rampNs: u64): System {
    System(S.Initial(maxSpeed, rampNs), B.Initial(), [], 0, 0, 0)
  }

  // ----- what the bridge holds is what it last received

  /** A published limit lies in [0, max], and a stop comes with the fault flag. */
  predicate Sane(m: S.Published, maxSpeed: real) {
    0.0 <= m.limit <= maxSpeed && (m.stop ==> m.faultLatched)
  }

  predicate Received(s: System) {
    && s.limitsSeen <= |s.sent| && s.flagsSeen <= |s.sent| && s.stopsSeen <= |s.sent|
    && s.bridge.recovery == (if s.limitsSeen == 0 then B.UNRESTRICTED else s.sent[s.limitsSeen - 1].limit)
    && s.bridge.fault == (s.flagsSeen > 0 && s.sent[s.flagsSeen - 1].faultLatched)
    && s.bridge.safeStop == (s.stopsSeen > 0 && s.sent[s.stopsSeen - 1].stop)
  }

  predicate Inv(s: System) {
    && S.Inv(s.node) && B.Inv(s.bridge) && Received(s)
    && AllSane(s.sent, s.node.limiter.maxSpeed)
  }

  predicate AllSane(sent: seq<S.Published>, maxSpeed: real) {
    forall i :: 0 <= i < |sent| ==> Sane(sent[i], maxSpeed)
  }

  lemma TickSendsSane(cfg: S.Config, n: S.Node, tick: S.Event)
    requires S.Inv(n) && tick.Tick?
    ensures Sane(S.TickPublishes(n, S.Step(cfg, n, tick)), n.limiter.maxSpeed)
  {
    S.StepKeeps(cfg, n, tick);
    S.MaximumKept(cfg, n, tick);
    S.TickPublishesFault(cfg, n, tick);
  }

  lemma ReceivedExtends(s: System, k: System)
    requires Received(s) && s.sent <= k.sent && k.bridge == s.bridge
    requires k.limitsSeen == s.limitsSeen && k.flagsSeen == s.flagsSeen && k.stopsSeen == s.stopsSeen
    ensures Received(k)
  {
  }

  lemma CallbackKeeps(cfg: S.Config, p: B.Params, s: System, c: S.Event)
    requires p.Acceptable() && Inv(s)
    ensures Inv(Step(cfg, p, s, Callback(c)))
  {
    S.StepKeeps(cfg, s.node, c);
    S.MaximumKept(cfg, s.node, c);
    if c.Tick? {
      TickSendsSane(cfg, s.node, c);
    }
    ReceivedExtends(s, Step(cfg, p, s, Callback(c)));
  }

  /** What a reception makes the bridge handle. */
  function Reception(s: System, e: Event): B.Event
    requires Possible(s, e) && (e.ReceiveLimit? || e.ReceiveState? || e.ReceiveStop?)
  {
    match e
    case ReceiveLimit(i) => B.RecoveryLimit(s.sent[i].limit)
    case ReceiveState(i) => B.State(s.sent[i].faultLatched)
    case ReceiveStop(i) => B.SafeStop(s.sent[i].stop)
  }

  lemma ReceptionKeeps(cfg: S.Config, p: B.Params, s: System, e: Event)
    requires p.Acceptable() && Inv(s) && Possible(s, e) && (e.ReceiveLimit? || e.ReceiveState? || e.ReceiveStop?)
    ensures Inv(Step(cfg, p, s, e))
  {
    var k := Step(cfg, p, s, e);
    assert Sane(s.sent[e.i], s.node.limiter.maxSpeed);
    B.StepKeeps(p, s.bridge, Reception(s, e));
    assert k == s.(bridge := k.bridge, limitsSeen := k.limitsSeen, flagsSeen := k.flagsSeen, stopsSeen := k.stopsSeen);
    ReceptionReceived(cfg, p, s, e);
  }

  lemma ReceptionReceived(cfg: S.Config, p: B.Params, s: System, e: Event)
    requires p.Acceptable() && Received(s) && Possible(s, e) && (e.ReceiveLimit? || e.ReceiveState? || e.ReceiveStop?)
    requires 0.0 <= s.sent[e.i].limit
    ensures Received(Step(cfg, p, s, e))
    ensures Step(cfg, p, s, e).bridge == B.Step(p, s.bridge, Reception(s, e))
  {
  }

  lemma StepKeeps(cfg: S.Config, p: B.Params, s: System, e: Event)
    requires p.Acceptable() && Inv(s) && Possible(s, e)
    ensures Inv(Step(cfg, p, s, e))
  {
    match e
    case Callback(c) => CallbackKeeps(cfg, p, s, c);
    case Local(b) => B.StepKeeps(p, s.bridge, b);
    case _ => ReceptionKeeps(cfg, p, s, e);
  }

  lemma {:induction false} RunKeeps(cfg: S.Config, p: B.Params, s: System, events: seq<Event>)
    requires p.Acceptable() && Inv(s) && IsRun(cfg, p, s, events)
    ensures Inv(Run(cfg, p, s, events))
    decreases |events|
  {
    if events != [] {
      StepKeeps(cfg, p, s, events[0]);
      RunKeeps(cfg, p, Step(cfg, p, s, events[0]), events[1..]);
    }
  }

  // ----- stops

  /** The last stop message asserts a stop, and the last state message does not report the fault that came with it. */
  predicate FlagsDisagree(s: System)
    requires s.flagsSeen <= |s.sent| && s.stopsSeen <= |s.sent|
  {
    && s.stopsSeen > 0 && s.sent[s.stopsSeen - 1].stop
    && (s.flagsSeen == 0 || !s.sent[s.flagsSeen - 1].faultLatched)
  }

  /** Flags from the same tick do not disagree. */
  lemma SameTickAgrees(s: System)
    requires Inv(s) && s.flagsSeen == s.stopsSeen
    ensures !FlagsDisagree(s)
  {
    if s.stopsSeen > 0 {
      assert Sane(s.sent[s.stopsSeen - 1], s.node.limiter.maxSpeed);
    }
  }

  /**
   * In every run of the whole system, whatever is lost or falls between the messages: a control tick under an
   * asserted stop publishes anything but zero exactly when the flags disagree and a speed of the profile is left.
   * Flags of one tick never disagree, because the supervisor asserts a stop only with a latched fault.
   */
  lemma StopIsImmediate(
    cfg: S.Config, p: B.Params, maxSpeed: real, rampNs: u64, events: seq<Event>, now: u64)
    requires p.Acceptable() && 0.0 < maxSpeed && IsRun(cfg, p, Initial(maxSpeed, rampNs), events)
    requires Run(cfg, p, Initial(maxSpeed, rampNs), events).bridge.safeStop
    ensures var end := Run(cfg, p, Initial(maxSpeed, rampNs), events);
            && end.flagsSeen <= |end.sent| && end.stopsSeen <= |end.sent|
            && (B.Output(p, end.bridge, now) != B.ZERO_TWIST <==>
                  FlagsDisagree(end) && end.bridge.plan != [] && end.bridge.plan[0] != 0.0)
            && (end.flagsSeen == end.stopsSeen ==> B.Output(p, end.bridge, now) == B.ZERO_TWIST)
  {
    var end := Run(cfg, p, Initial(maxSpeed, rampNs), events);
    RunKeeps(cfg, p, Initial(maxSpeed, rampNs), events);
    B.StopOutputIff(p, end.bridge, now);
    if end.flagsSeen == end.stopsSeen {
      SameTickAgrees(end);
    }
  }

  predicate IsClear(e: Event) {
    e.Callback? && e.e.ClearRequest?
  }

  predicate NoClear(events: seq<Event>) {
    forall i :: 0 <= i < |events| ==> !IsClear(events[i])
  }

  /** The node is in SafeStop, and everything sent from tick `first` on says so. */
  predicate StoppedSince(s: System, first: nat) {
    && s.node.machine.mode == Modes.SafeStop
    && forall i :: first <= i < |s.sent| ==> s.sent[i].faultLatched
  }

  lemma {:induction false} StoppedSinceHolds(
    cfg: S.Config, p: B.Params, s: System, events: seq<Event>, first: nat)
    requires p.Acceptable() && Inv(s) && IsRun(cfg, p, s, events) && NoClear(events) && StoppedSince(s, first)
    ensures StoppedSince(Run(cfg, p, s, events), first)
    decreases |events|
  {
    if events != [] {
      var e := events[0];
      StepKeeps(cfg, p, s, e);
      if e.Callback? {
        S.SafeStopExit(cfg, s.node, e.e);
        if e.e.Tick? {
          S.TickPublishesFault(cfg, s.node, e.e);
        }
      }
      StoppedSinceHolds(cfg, p, Step(cfg, p, s, e), events[1..], first);
    }
  }

  /**
   * The whole stop: from a tick that ends in SafeStop until a fault is cleared, whatever is lost or arrives in
   * whatever order, every control tick publishes zero once the bridge has received a state message of that tick or a
   * later one.
   */
  lemma StopLasts(cfg: S.Config, p: B.Params, s: System, tick: Event, events: seq<Event>, now: u64)
    requires p.Acceptable() && Inv(s) && IsTick(tick)
    requires Step(cfg, p, s, tick).node.machine.mode == Modes.SafeStop
    requires IsRun(cfg, p, Step(cfg, p, s, tick), events) && NoClear(events)
    requires |s.sent| < Run(cfg, p, Step(cfg, p, s, tick), events).flagsSeen
    ensures B.Output(p, Run(cfg, p, Step(cfg, p, s, tick), events).bridge, now) == B.ZERO_TWIST
  {
    var ticked := Step(cfg, p, s, tick);
    TickSends(cfg, p, s, tick);
    RunKeeps(cfg, p, ticked, events);
    StoppedSinceHolds(cfg, p, ticked, events, |s.sent|);
  }

  // ----- the supervisor's limit binds the bridge

  /**
   * Once a limit has been received, a control tick exceeds it exactly when it replays a higher speed of the profile;
   * the limit itself never exceeds the supervisor's maximum.
   */
  lemma LimitBindsIff(cfg: S.Config, p: B.Params, maxSpeed: real, rampNs: u64, events: seq<Event>, now: u64)
    requires p.Acceptable() && 0.0 < maxSpeed && IsRun(cfg, p, Initial(maxSpeed, rampNs), events)
    requires 0 < Run(cfg, p, Initial(maxSpeed, rampNs), events).limitsSeen
    ensures var end := Run(cfg, p, Initial(maxSpeed, rampNs), events);
            && end.limitsSeen <= |end.sent|
            && var limit := end.sent[end.limitsSeen - 1].limit;
               && limit <= maxSpeed
               && (Abs(B.Output(p, end.bridge, now).linear) <= limit <==>
                     !(B.Replays(end.bridge) && limit < end.bridge.plan[0]))
  {
    var start := Initial(maxSpeed, rampNs);
    RunKeeps(cfg, p, start, events);
    RunKeepsMaximum(cfg, p, start, events);
    var end := Run(cfg, p, start, events);
    assert Sane(end.sent[end.limitsSeen - 1], maxSpeed);
    B.RecoveryLimitIff(p, end.bridge, now);
  }

  lemma {:induction false} RunKeepsMaximum(cfg: S.Config, p: B.Params, s: System, events: seq<Event>)
    requires p.Acceptable() && IsRun(cfg, p, s, events)
    ensures Run(cfg, p, s, events).node.limiter.maxSpeed == s.node.limiter.maxSpeed
    decreases |events|
  {
    if events != [] {
      if events[0].Callback? {
        S.MaximumKept(cfg, s.node, events[0].e);
      }
      RunKeepsMaximum(cfg, p, Step(cfg, p, s, events[0]), events[1..]);
    }
  }

  predicate IsTick(e: Event) {
    e.Callback? && e.e.Tick?
  }

  predicate NoTick(events: seq<Event>) {
    forall i :: 0 <= i < |events| ==> !IsTick(events[i])
  }

  lemma {:induction false} NothingSent(cfg: S.Config, p: B.Params, s: System, events: seq<Event>)
    requires p.Acceptable() && IsRun(cfg, p, s, events) && NoTick(events)
    ensures Run(cfg, p, s, events).sent == s.sent
    decreases |events|
  {
    if events != [] {
      NothingSent(cfg, p, Step(cfg, p, s, events[0]), events[1..]);
    }
  }

  /** What a tick sends: the limit it computed, and whether it ended in SafeStop. */
  lemma TickSends(cfg: S.Config, p: B.Params, s: System, tick: Event)
    requires p.Acceptable() && Inv(s) && IsTick(tick)
    ensures var k := Step(cfg, p, s, tick);
            && Inv(k) && |k.sent| == |s.sent| + 1
            && k.sent[|s.sent|].limit == k.node.limiter.current
            && (k.sent[|s.sent|].faultLatched <==> k.node.machine.mode == Modes.SafeStop)
  {
    StepKeeps(cfg, p, s, tick);
    S.TickPublishesFault(cfg, s.node, tick.e);
  }

  /**
   * From one supervisor tick to the next, whatever else happens and in whatever order its messages arrive: once the
   * bridge has received the limit of that tick, a published speed exceeds it exactly when it replays a higher speed
   * of the profile, which flags of one tick never allow. The limit is at most the maximum, at most half of it when a
   * sensor is held to be DEGRADED. Once the state of a tick that ended in SafeStop has arrived, zero is published.
   */
  lemma LimitBindsBridge(cfg: S.Config, p: B.Params, s: System, tick: Event, events: seq<Event>, now: u64)
    requires p.Acceptable() && Inv(s) && IsTick(tick)
    requires IsRun(cfg, p, Step(cfg, p, s, tick), events) && NoTick(events)
    requires var end := Run(cfg, p, Step(cfg, p, s, tick), events); end.limitsSeen == |end.sent|
    ensures var ticked := Step(cfg, p, s, tick);
            var limit, end := ticked.node.limiter.current, Run(cfg, p, ticked, events);
            var out := B.Output(p, end.bridge, now);
            && limit <= ticked.node.limiter.maxSpeed
            && (R.AnyDegraded(ticked.node.recovery.sensors) ==> limit <= ticked.node.limiter.maxSpeed * 0.5)
            && (Abs(out.linear) <= limit <==> !(B.Replays(end.bridge) && limit < end.bridge.plan[0]))
            && (end.flagsSeen == end.stopsSeen ==> Abs(out.linear) <= limit)
            && (end.flagsSeen == |end.sent| && ticked.node.machine.mode == Modes.SafeStop ==> out == B.ZERO_TWIST)
  {
    var ticked := Step(cfg, p, s, tick);
    var end := Run(cfg, p, ticked, events);
    TickSends(cfg, p, s, tick);
    NothingSent(cfg, p, ticked, events);
    RunKeeps(cfg, p, ticked, events);
    B.RecoveryLimitIff(p, end.bridge, now);
    if end.flagsSeen == end.stopsSeen {
      SameTickAgrees(end);
    }
  }

  // ----- a stop message that overtakes its state message

  /** The first emergency, with the stop message received before the state message of the same tick. */
  function Overtaking(v: real, now: u64): seq<Event> {
    [Local(B.Odometry(v)), Callback(S.Envelope(S.EMERGENCY)), Callback(S.Tick(now, now, now, [])),
     ReceiveLimit(0), ReceiveStop(0)]
  }

  lemma RunSplit(cfg: S.Config, p: B.Params, s: System, a: Event, rest: seq<Event>)
    requires p.Acceptable() && Possible(s, a) && IsRun(cfg, p, Step(cfg, p, s, a), rest)
    ensures IsRun(cfg, p, s, [a] + rest)
    ensures Run(cfg, p, s, [a] + rest) == Run(cfg, p, Step(cfg, p, s, a), rest)
  {
    assert ([a] + rest)[1..] == rest;
  }

  lemma EmergencyTick(cfg: S.Config, maxSpeed: real, rampNs: u64, now: u64)
    requires 0.0 < maxSpeed
    ensures var breached := S.Step(cfg, S.Initial(maxSpeed, rampNs), S.Envelope(S.EMERGENCY));
            var sent := S.TickPublishes(breached, S.Step(cfg, breached, S.Tick(now, now, now, [])));
            sent.limit == 0.0 && sent.stop
  {
  }

  /**
   * A failing run from the start: the robot moves at `v`, an obstacle enters the emergency zone, and the bridge
   * receives the limit and the stop of the next tick before its state. The limit it holds is zero, the supervisor has
   * latched the fault, and the bridge publishes `v`.
   */
  lemma StopOvertakesFault(
    cfg: S.Config, p: B.Params, maxSpeed: real, rampNs: u64, v: real, now: u64, later: u64)
    requires p.Acceptable() && 0.0 < maxSpeed && 0.0 < v
    requires B.Smooth.Steps(p.StopFrom(v)) < B.PROFILE_CAPACITY
    ensures var s := Initial(maxSpeed, rampNs);
            && IsRun(cfg, p, s, Overtaking(v, now))
            && var end := Run(cfg, p, s, Overtaking(v, now));
               && end.node.machine.mode == Modes.SafeStop
               && end.bridge.recovery == 0.0
               && B.Output(p, end.bridge, later) == B.Twist(v, 0.0)
  {
    var s0 := Initial(maxSpeed, rampNs);
    var events := Overtaking(v, now);
    EmergencyTick(cfg, maxSpeed, rampNs, now);
    var s1 := Step(cfg, p, s0, events[0]);
    var s2 := Step(cfg, p, s1, events[1]);
    var s3 := Step(cfg, p, s2, events[2]);
    S.SafeStopExit(cfg, s2.node, events[2].e);
    var s4 := Step(cfg, p, s3, events[3]);
    var s5 := Step(cfg, p, s4, events[4]);
    FiveSteps(cfg, p, s0, events);
    B.StopPlanFalls(p, v);
    assert s5.bridge.plan == B.StopPlan(p, v) && !s5.bridge.fault && s5.bridge.safeStop;
  }

  lemma FiveSteps(cfg: S.Config, p: B.Params, s: System, events: seq<Event>)
    requires p.Acceptable() && |events| == 5
    requires Possible(s, events[0])
    requires var s1 := Step(cfg, p, s, events[0]); Possible(s1, events[1])
    requires var s2 := Step(cfg, p, Step(cfg, p, s, events[0]), events[1]); Possible(s2, events[2])
    requires var s3 := Step(cfg, p, Step(cfg, p, Step(cfg, p, s, events[0]), events[1]), events[2]);
             Possible(s3, events[3]) && Possible(Step(cfg, p, s3, events[3]), events[4])
    ensures var s3 := Step(cfg, p, Step(cfg, p, Step(cfg, p, s, events[0]), events[1]), events[2]);
            && IsRun(cfg, p, s, events)
            && Run(cfg, p, s, events) == Step(cfg, p, Step(cfg, p, s3, events[3]), events[4])
  {
    var s1 := Step(cfg, p, s, events[0]);
    var s2 := Step(cfg, p, s1, events[1]);
    var s3 := Step(cfg, p, s2, events[2]);
    var s4 := Step(cfg, p, s3, events[3]);
    RunSplit(cfg, p, s4, events[4], []);
    RunSplit(cfg, p, s3, events[3], [events[4]]);
    RunSplit(cfg, p, s2, events[2], [events[3], events[4]]);
    RunSplit(cfg, p, s1, events[1], [events[2], events[3], events[4]]);
    RunSplit(cfg, p, s, events[0], [events[1], events[2], events[3], events[4]]);
    assert events == [events[0]] + ([events[1]] + ([events[2]] + ([events[3]] + ([events[4]] + []))));
    assert [events[4]] + [] == [events[4]];
    assert [events[3]] + [events[4]] == [events[3], events[4]];
    assert [events[2]] + [events[3], events[4]] == [events[2], events[3], events[4]];
    assert [events[1]] + [events[2], events[3], events[4]] == [events[1], events[2], events[3], events[4]];
  }
}
