/** `SafetySupervisor`: turns monitor observations into mode changes of the machine it supervises. */
module SafetyMonitor {
  import opened Numeric
  import opened ModeMachine

  const CLOCK_REGRESSION := 1001
  const LOCALIZATION_LOST := 1002
  const TRANSPORT_DROP := 1003

  datatype Severity = NoSeverity | Warning | DegradedSeverity | Critical

  function Escalate(m: Machine, severity: Severity, code: nat): Machine {
    match severity
    case NoSeverity => m
    case Warning => m
    case DegradedSeverity => Transition(m, Degraded)
    case Critical => Latch(m, code)
  }

  /** The status an escalation reports, for a supervisor that has a machine. */
  function EscalationStatus(m: Machine, severity: Severity): Status {
    match severity
    case NoSeverity => Ok
    case Warning => Ok
    case DegradedSeverity => if CanGo(m, Degraded) || m.mode == Degraded || m.mode == SafeStop then Ok else Fault
    case Critical => Fault
  }

  function AgeSeverity(age: u64, timeout: u64): Severity {
    if timeout == 0 || age <= timeout then NoSeverity
    else if age >= (2 * timeout) % U64 then Critical
    else DegradedSeverity
  }

  function DropSeverity(dropped: u64, warning: u64, critical: u64): Severity {
    if critical > 0 && dropped >= critical then Critical
    else if warning > 0 && dropped >= warning then Warning
    else NoSeverity
  }

  /** The last clock sample seen, if any. */
  type ClockMemory = Option<u64>

  function ClockSeverity(last: ClockMemory, now: u64): Severity {
    if last.Some? && now < last.value then Critical else NoSeverity
  }

  /**
   * An old localization degrades past the timeout and latches from twice the timeout, modulo 2^64, on; a timeout of
   * zero disables the check.
   */
  lemma AgeDecides(m: Machine, age: u64, timeout: u64)
    ensures Escalate(m, AgeSeverity(age, timeout), 1002) ==
              if timeout == 0 || age <= timeout then m
              else if (2 * timeout) % U64 <= age then Machine(SafeStop, true, 1002)
              else Transition(m, Degraded)
  {
  }

  /** A clock that goes back latches; the first sample never does. */
  lemma ClockDecides(m: Machine, last: ClockMemory, now: u64)
    ensures Escalate(m, ClockSeverity(last, now), 1001) ==
              if last.Some? && now < last.value then Machine(SafeStop, true, 1001) else m
  {
  }

  /** Only the critical threshold acts on the machine, and zero disables it. */
  lemma DropsDecide(m: Machine, dropped: u64, warning: u64, critical: u64)
    ensures Escalate(m, DropSeverity(dropped, warning, critical), 1003) ==
              if 0 < critical <= dropped then Machine(SafeStop, true, 1003) else m
    ensures EscalationStatus(m, DropSeverity(dropped, warning, critical)) == Fault <==> 0 < critical <= dropped
  {
  }

  /** A request to degrade fails in Init and Docking, and with a fault latched outside SafeStop and Degraded. */
  lemma DegradeFailsIff(m: Machine)
    ensures EscalationStatus(m, DegradedSeverity) in {Ok, Fault}
    ensures EscalationStatus(m, DegradedSeverity) == Fault <==>
              m.mode in {Init, Docking} || (m.latched && m.mode !in {SafeStop, Degraded})
  {
  }

  /** The status of an escalation without a machine to act on. */
  function UnsupervisedStatus(severity: Severity): Status {
    if severity == Critical then Fault else Ok
  }

  class SafetySupervisor {
    var machine: ModeStateMachine?
    var hasClockSample: bool
    var lastClock: u64

    function Clock(): ClockMemory
      reads this
    {
      if hasClockSample then Some(lastClock) else None
    }

    constructor (machine: ModeStateMachine?)
      ensures this.machine == machine && Clock() == None
    {
      this.machine := machine;
      hasClockSample, lastClock := false, 0;
    }

    method ProcessMonitorEvent(severity: Severity, code: nat) returns (r: Status)
      modifies machine
      ensures machine != null ==>
                && machine.View() == Escalate(old(machine.View()), severity, code)
                && r == EscalationStatus(old(machine.View()), severity)
      ensures machine == null ==> r == UnsupervisedStatus(severity)
    {
      match severity {
        case NoSeverity => return Ok;
        case Warning => return Ok;
        case DegradedSeverity =>
          if machine == null {
            return Ok;
          }
          var res := machine.TransitionTo(Degraded);
          if res != Ok && machine.mode != Degraded && machine.mode != SafeStop {
            return Fault;
          }
          return Ok;
        case Critical =>
          if machine == null {
            return Fault;
          }
          r := machine.LatchFault(code);
      }
    }

    method ObserveClockSample(now: u64) returns (r: Status)
      modifies this`hasClockSample, this`lastClock, machine
      ensures machine == old(machine) && Clock() == Some(now)
      ensures var severity := ClockSeverity(old(Clock()), now);
              if machine == null then r == UnsupervisedStatus(severity)
              else machine.View() == Escalate(old(machine.View()), severity, CLOCK_REGRESSION)
                   && r == EscalationStatus(old(machine.View()), severity)
    {
      if !hasClockSample {
        hasClockSample := true;
        lastClock := now;
        return Ok;
      }
      if now < lastClock {
        lastClock := now;
        r := ProcessMonitorEvent(Critical, CLOCK_REGRESSION);
        return;
      }
      lastClock := now;
      return Ok;
    }

    method ObserveLocalizationAge(age: u64, timeout: u64) returns (r: Status)
      modifies machine
      ensures var severity := AgeSeverity(age, timeout);
              if machine == null then r == UnsupervisedStatus(severity)
              else machine.View() == Escalate(old(machine.View()), severity, LOCALIZATION_LOST)
                   && r == EscalationStatus(old(machine.View()), severity)
    {
      if timeout == 0 || age <= timeout {
        return Ok;
      }
      var severity := if age >= (2 * timeout) % U64 then Critical else DegradedSeverity;
      r := ProcessMonitorEvent(severity, LOCALIZATION_LOST);
    }

    method ObserveTransportDrops(dropped: u64, warning: u64, critical: u64) returns (r: Status)
      modifies machine
      ensures var severity := DropSeverity(dropped, warning, critical);
              if machine == null then r == UnsupervisedStatus(severity)
              else machine.View() == Escalate(old(machine.View()), severity, TRANSPORT_DROP)
                   && r == EscalationStatus(old(machine.View()), severity)
    {
      if critical > 0 && dropped >= critical {
        r := ProcessMonitorEvent(Critical, TRANSPORT_DROP);
        return;
      }
      if warning > 0 && dropped >= warning {
        r := ProcessMonitorEvent(Warning, TRANSPORT_DROP);
        return;
      }
      return Ok;
    }
  }
}
