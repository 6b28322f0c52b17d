/** `ModeStateMachine`: the operating mode, the fault latch, and the transitions between modes. */
module ModeMachine {

  datatype Mode =
    | Init
    | Idle
    | Moving
    | Degraded
    | AvoidingObstacle
    | LocalizationLost
    | Docking
    | SafeStop

  datatype Status = Ok | InvalidState | DeadlineMiss | Fault

  datatype Machine = Machine(mode: Mode, latched: bool, faultCode: nat)
  {
    /** The robot is in SafeStop exactly while a fault is latched. */
    predicate Consistent() {
      mode == SafeStop <==> latched
    }
  }

  predicate Allowed(current: Mode, target: Mode) {
    current == target ||
    match current
    case Init => target == Idle || target == SafeStop
    case Idle => target == Moving || target == Degraded || target == SafeStop || target == Docking
    case Moving =>
      target == Degraded || target == AvoidingObstacle || target == LocalizationLost || target == SafeStop
      || target == Docking
    case Degraded =>
      target == Moving || target == AvoidingObstacle || target == LocalizationLost || target == SafeStop
      || target == Docking
    case AvoidingObstacle => target == Moving || target == Degraded || target == SafeStop
    case LocalizationLost => target == Degraded || target == Idle || target == SafeStop
    case Docking => target == Idle || target == SafeStop
    case SafeStop => false
  }

  predicate CanGo(m: Machine, target: Mode) {
    (m.latched ==> target == SafeStop) && Allowed(m.mode, target)
  }

  function Transition(m: Machine, target: Mode): Machine {
    if CanGo(m, target) then m.(mode := target) else m
  }

  function Latch(m: Machine, code: nat): Machine {
    Machine(SafeStop, true, code)
  }

  function Clear(m: Machine): Machine {
    if m.latched then Machine(Idle, false, 0) else m
  }

  function Recover(m: Machine): Machine {
    if m.mode == LocalizationLost then m.(mode := Degraded) else m
  }

  /**
   * One request breaks the latch invariant: SafeStop with no fault latched, which is granted from every mode. No
   * request, clear or recovery leaves the SafeStop it leads to; only latching a fault and clearing it does.
   */
  lemma TransitionMeaning(m: Machine, target: Mode)
    ensures m.Consistent() ==> (Transition(m, target).Consistent() <==> (target == SafeStop ==> m.latched))
    ensures m.mode == SafeStop ==> Transition(m, target) == m == Recover(m)
    ensures m.mode == SafeStop && !m.latched ==> Clear(m) == m
    ensures forall code: nat :: Clear(Latch(m, code)) == Machine(Idle, false, 0)
  {
  }

  /** The modes from which each mode can be entered. */
  function EnteredFrom(target: Mode): set<Mode> {
    match target
    case Init => {}
    case Idle => {Init, LocalizationLost, Docking}
    case Moving => {Idle, Degraded, AvoidingObstacle}
    case Degraded => {Idle, Moving, AvoidingObstacle, LocalizationLost}
    case AvoidingObstacle => {Moving, Degraded}
    case LocalizationLost => {Moving, Degraded}
    case Docking => {Idle, Moving, Degraded}
    case SafeStop => {Init, Idle, Moving, Degraded, AvoidingObstacle, LocalizationLost, Docking}
  }

  /** A request moves the machine exactly from those modes, and with a latched fault only into SafeStop. */
  lemma TransitionDecides(m: Machine, target: Mode)
    ensures Transition(m, target) ==
              if m.mode in EnteredFrom(target) && (m.latched ==> target == SafeStop) then
                Machine(target, m.latched, m.faultCode)
              else m
    ensures CanGo(m, target) <==>
              (m.mode == target || m.mode in EnteredFrom(target)) && (m.latched ==> target == SafeStop)
  {
  }

  class ModeStateMachine {
    var mode: Mode
    var latched: bool
    var faultCode: nat

    function View(): Machine
      reads this
    {
      Machine(mode, latched, faultCode)
    }

    constructor ()
      ensures View() == Machine(Init, false, 0)
    {
      mode, latched, faultCode := Init, false, 0;
    }

    method TransitionTo(target: Mode) returns (r: Status)
      modifies this
      ensures View() == Transition(old(View()), target)
      ensures r == if CanGo(old(View()), target) then Ok else InvalidState
    {
      if latched && target != SafeStop {
        return InvalidState;
      }
      if !Allowed(mode, target) {
        return InvalidState;
      }
      mode := target;
      return Ok;
    }

    method LatchFault(code: nat) returns (r: Status)
      modifies this
      ensures View() == Latch(old(View()), code) && r == Fault
    {
      latched := true;
      faultCode := code;
      mode := SafeStop;
      return Fault;
    }

    method ClearFault() returns (r: Status)
      modifies this
      ensures View() == Clear(old(View()))
      ensures r == if old(latched) then Ok else InvalidState
    {
      if !latched {
        return InvalidState;
      }
      latched := false;
      faultCode := 0;
      mode := Idle;
      return Ok;
    }

    method RequestObstacleHold() returns (r: Status)
      modifies this
      ensures View() == Transition(old(View()), AvoidingObstacle)
      ensures r == if CanGo(old(View()), AvoidingObstacle) then Ok else InvalidState
    {
      r := TransitionTo(AvoidingObstacle);
    }

    method ReportLocalizationLost() returns (r: Status)
      modifies this
      ensures View() == Transition(old(View()), LocalizationLost)
      ensures r == if CanGo(old(View()), LocalizationLost) then Ok else InvalidState
    {
      r := TransitionTo(LocalizationLost);
    }

    method RecoverLocalization() returns (r: Status)
      modifies this
      ensures View() == Recover(old(View()))
      ensures r == if old(mode) == LocalizationLost then Ok else InvalidState
    {
      if mode != LocalizationLost {
        return InvalidState;
      }
      mode := Degraded;
      return Ok;
    }
  }
}
