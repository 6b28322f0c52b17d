/** `SensorRecoveryManager`: follows each sensor through degraded spells and recovery timeouts. */
module SensorRecovery {
  import opened Numeric

  const UNKNOWN: byte := 0
  const HEALTHY: byte := 1
  const DEGRADED: byte := 2
  const FAULT: byte := 3

  datatype SensorInfo = SensorInfo(status: byte, degradedSince: Option<u64>, timedOut: bool)

  type Sensors = map<string, SensorInfo>

  datatype HealthTransition = Unchanged | BecameDegraded | Recovered

  function Lookup(sensors: Sensors, name: string): Option<SensorInfo> {
    if name in sensors then Some(sensors[name]) else None
  }

  /** The record of a sensor after a status report. */
  function Report(known: Option<SensorInfo>, status: byte, now: u64): SensorInfo {
    match known
    case None => SensorInfo(status, if status == DEGRADED then Some(now) else None, false)
    case Some(info) =>
      if info.timedOut && status == DEGRADED then info
      else if info.status == status then info
      else if status == DEGRADED then info.(status := status, degradedSince := Some(now))
      else if info.status == DEGRADED && status == HEALTHY then info.(status := status, degradedSince := None)
      else if status == FAULT then info.(status := status, degradedSince := None)
      else info.(status := status)
  }

  function ReportTransition(known: Option<SensorInfo>, status: byte): HealthTransition {
    match known
    case None => if status == DEGRADED then BecameDegraded else Unchanged
    case Some(info) =>
      if (info.timedOut && status == DEGRADED) || info.status == status then Unchanged
      else if status == DEGRADED then BecameDegraded
      else if info.status == DEGRADED && status == HEALTHY then Recovered
      else Unchanged
  }

  predicate Overdue(info: SensorInfo, now: u64, timeout: u64) {
    info.status == DEGRADED && info.degradedSince.Some? && Sub64(now, info.degradedSince.value) > timeout
  }

  function TimeOut(info: SensorInfo): SensorInfo {
    info.(timedOut := true, degradedSince := None)
  }

  /** `order` is one of the ways in which an unordered map can be walked. */
  ghost predicate Walks(order: seq<string>, sensors: Sensors) {
    && (forall i, j :: 0 <= i < j < |order| ==> order[i] != order[j])
    && (forall name :: name in order <==> name in sensors)
  }

  function FirstOverdue(sensors: Sensors, order: seq<string>, now: u64, timeout: u64): Option<string> {
    if order == [] then None
    else if order[0] in sensors && Overdue(sensors[order[0]], now, timeout) then Some(order[0])
    else FirstOverdue(sensors, order[1..], now, timeout)
  }

  /** What is left of the table, and the name reported: the empty string stands for "none". */
  function CheckTimeouts(sensors: Sensors, order: seq<string>, now: u64, timeout: u64): (r: (Sensors, string))
    ensures r.0.Keys == sensors.Keys
  {
    match FirstOverdue(sensors, order, now, timeout)
    case None => (sensors, "")
    case Some(name) =>
      if name in sensors then (sensors[name := TimeOut(sensors[name])], name) else (sensors, "")
  }

  predicate AnyDegraded(sensors: Sensors) {
    exists name :: name in sensors && sensors[name].status == DEGRADED
  }

  // ----- what one timeout check reports

  function AllOverdue(sensors: Sensors, now: u64, timeout: u64): set<string> {
    set name | name in sensors && Overdue(sensors[name], now, timeout)
  }

  lemma {:induction false} FirstOverdueMeaning(sensors: Sensors, order: seq<string>, now: u64, timeout: u64)
    ensures var first := FirstOverdue(sensors, order, now, timeout);
            && (first.Some? ==> first.value in AllOverdue(sensors, now, timeout) && first.value in order)
            && (first.None? ==> forall name :: name in order ==> name !in AllOverdue(sensors, now, timeout))
  {
    if order != [] {
      FirstOverdueMeaning(sensors, order[1..], now, timeout);
    }
  }

  /** In any walking order a check times out exactly one overdue sensor, and does nothing when there is none. */
  lemma CheckTakesOne(sensors: Sensors, order: seq<string>, now: u64, timeout: u64)
    requires Walks(order, sensors)
    ensures var due, r := AllOverdue(sensors, now, timeout), CheckTimeouts(sensors, order, now, timeout);
            if due == {} then r == (sensors, "")
            else r.1 in due && r.0 == sensors[r.1 := TimeOut(sensors[r.1])]
                 && AllOverdue(r.0, now, timeout) == due - {r.1}
  {
    FirstOverdueMeaning(sensors, order, now, timeout);
  }

  /** Successive checks at one instant, each free to walk the table in its own order. */
  function Drain(sensors: Sensors, orders: seq<seq<string>>, now: u64, timeout: u64): Sensors {
    if orders == [] then sensors
    else Drain(CheckTimeouts(sensors, orders[0], now, timeout).0, orders[1..], now, timeout)
  }

  /** As many checks as there are overdue sensors leave none overdue. */
  lemma {:induction false} DrainEmpties(sensors: Sensors, orders: seq<seq<string>>, now: u64, timeout: u64)
    requires forall order :: order in orders ==> Walks(order, sensors)
    requires |AllOverdue(sensors, now, timeout)| <= |orders|
    ensures AllOverdue(Drain(sensors, orders, now, timeout), now, timeout) == {}
  {
    if orders != [] {
      var due := AllOverdue(sensors, now, timeout);
      var r := CheckTimeouts(sensors, orders[0], now, timeout);
      assert Walks(orders[0], sensors);
      CheckTakesOne(sensors, orders[0], now, timeout);
      forall order | order in orders[1..] ensures Walks(order, r.0) {
        assert order in orders;
      }
      if due != {} {
        assert |due - {r.1}| == |due| - 1;
      }
      DrainEmpties(r.0, orders[1..], now, timeout);
    }
  }

  lemma {:induction false} WalkExists(names: set<string>) returns (order: seq<string>)
    ensures forall i, j :: 0 <= i < j < |order| ==> order[i] != order[j]
    ensures forall name :: name in order <==> name in names
    decreases names
  {
    if names == {} {
      order := [];
    } else {
      var first :| first in names;
      var rest := WalkExists(names - {first});
      order := [first] + rest;
    }
  }

  /**
   * An empty answer means "none overdue", whatever the walking order, if and only if no sensor whose own name is
   * empty is overdue: such a sensor is timed out but reported like nothing at all.
   */
  lemma EmptyAnswerMeansNoneIff(sensors: Sensors, now: u64, timeout: u64)
    ensures (forall order :: Walks(order, sensors) && CheckTimeouts(sensors, order, now, timeout).1 == "" ==>
              AllOverdue(sensors, now, timeout) == {})
            <==> "" !in AllOverdue(sensors, now, timeout)
  {
    if "" in AllOverdue(sensors, now, timeout) {
      var rest := WalkExists(sensors.Keys - {""});
      var order := [""] + rest;
      assert Walks(order, sensors);
      assert CheckTimeouts(sensors, order, now, timeout).1 == "";
    } else {
      forall order | Walks(order, sensors) && CheckTimeouts(sensors, order, now, timeout).1 == ""
        ensures AllOverdue(sensors, now, timeout) == {}
      {
        CheckTakesOne(sensors, order, now, timeout);
      }
    }
  }

  // ----- whole histories

  datatype Event =
    | Health(name: string, status: byte, now: u64)
    | Check(now: u64, timeout: u64, order: seq<string>)

  function Step(sensors: Sensors, e: Event): Sensors {
    match e
    case Health(name, status, now) => sensors[name := Report(Lookup(sensors, name), status, now)]
    case Check(now, timeout, order) => CheckTimeouts(sensors, order, now, timeout).0
  }

  function Replay(log: seq<Event>): Sensors {
    if log == [] then map[] else Step(Replay(log[..|log| - 1]), log[|log| - 1])
  }

  /** The last status reported for a sensor. */
  function LastReported(log: seq<Event>, name: string): Option<byte> {
    if log == [] then None
    else
      var e := log[|log| - 1];
      if e.Health? && e.name == name then Some(e.status) else LastReported(log[..|log| - 1], name)
  }

  /** When the unbroken run of DEGRADED reports that a sensor's reports end with began. */
  function SpellStart(log: seq<Event>, name: string): Option<u64> {
    if log == [] then None
    else
      var e, before := log[|log| - 1], log[..|log| - 1];
      if !(e.Health? && e.name == name) then SpellStart(before, name)
      else if e.status != DEGRADED then None
      else if LastReported(before, name) == Some(DEGRADED) then SpellStart(before, name)
      else Some(e.now)
  }

  predicate Tracked(log: seq<Event>, name: string, known: Option<SensorInfo>) {
    match known
    case None => LastReported(log, name) == None
    case Some(info) =>
      && (info.status == DEGRADED ==> (info.degradedSince.Some? <==> !info.timedOut))
      && (!info.timedOut ==> LastReported(log, name) == Some(info.status))
      && (!info.timedOut && info.status == DEGRADED ==> info.degradedSince == SpellStart(log, name))
  }

  lemma CheckTouchesOne(sensors: Sensors, order: seq<string>, now: u64, timeout: u64, name: string)
    requires name in sensors
    ensures var after := CheckTimeouts(sensors, order, now, timeout).0;
            || after[name] == sensors[name]
            || (Overdue(sensors[name], now, timeout) && after[name] == TimeOut(sensors[name]))
  {
    FirstOverdueMeaning(sensors, order, now, timeout);
  }

  lemma {:induction false} AllTracked(log: seq<Event>, name: string)
    ensures Tracked(log, name, Lookup(Replay(log), name))
  {
    if log != [] {
      var e, before := log[|log| - 1], log[..|log| - 1];
      AllTracked(before, name);
      if e.Check? && name in Replay(before) {
        CheckTouchesOne(Replay(before), e.order, e.now, e.timeout, name);
      }
    }
  }

  /**
   * After any history, a sensor held to be DEGRADED has a start time if and only if it has not timed out, and that
   * start is when its current spell of DEGRADED reports began.
   */
  lemma DegradedSpell(log: seq<Event>, name: string)
    requires name in Replay(log) && Replay(log)[name].status == DEGRADED
    ensures var info := Replay(log)[name];
            && (info.degradedSince.Some? <==> !info.timedOut)
            && (info.degradedSince.Some? ==> info.degradedSince == SpellStart(log, name))
  {
    AllTracked(log, name);
  }

  /**
   * What a report does to the record of a sensor, and what it is reported as. Only a sensor that has timed out
   * ignores a report, and only one of DEGRADED.
   */
  lemma ReportDecides(known: Option<SensorInfo>, status: byte, now: u64)
    ensures var degraded := status == 2 && (known.None? || (known.value.status != 2 && !known.value.timedOut));
            var recovered := status == 1 && known.Some? && known.value.status == 2;
            var info := Report(known, status, now);
            && (ReportTransition(known, status) == BecameDegraded <==> degraded)
            && (ReportTransition(known, status) == Recovered <==> recovered)
            && info.timedOut == (known.Some? && known.value.timedOut)
            && info.status == (if status == 2 && info.timedOut then known.value.status else status)
            && info.degradedSince ==
                 (if degraded then Some(now)
                  else if recovered || known.None? || (status == 3 && known.value.status != 3) then None
                  else known.value.degradedSince)
  {
  }

  /**
   * A check after any history reports a sensor only if its spell of DEGRADED reports has lasted longer than the
   * timeout, and marks that sensor alone; it reports nothing only if no spell has, provided that no sensor has an
   * empty name.
   */
  lemma CheckDecides(log: seq<Event>, order: seq<string>, now: u64, timeout: u64)
    requires Walks(order, Replay(log)) && "" !in Replay(log)
    ensures var sensors := Replay(log);
            var (after, name) := CheckTimeouts(sensors, order, now, timeout);
            if name != "" then
              && name in sensors && sensors[name].status == 2 && !sensors[name].timedOut
              && SpellStart(log, name).Some? && timeout < (now - SpellStart(log, name).value) % U64
              && after == sensors[name := SensorInfo(2, None, true)]
            else
              && after == sensors
              && forall s :: s in sensors && sensors[s].status == 2 && !sensors[s].timedOut ==>
                   SpellStart(log, s).Some? && (now - SpellStart(log, s).value) % U64 <= timeout
  {
    var sensors := Replay(log);
    CheckTakesOne(sensors, order, now, timeout);
    forall s | s in sensors && sensors[s].status == 2
      ensures !sensors[s].timedOut ==> SpellStart(log, s).Some?
      ensures s in AllOverdue(sensors, now, timeout) <==>
                !sensors[s].timedOut && timeout < (now - SpellStart(log, s).value) % U64
    {
      DegradedSpell(log, s);
    }
  }

  /**
   * The time-out mark is never taken back: a sensor that timed out and then reported anything else is never held to
   * be DEGRADED again, whatever it reports.
   */
  lemma {:induction false} TimedOutForGood(log: seq<Event>, more: seq<Event>, name: string)
    requires name in Replay(log) && Replay(log)[name].timedOut && Replay(log)[name].status != DEGRADED
    ensures name in Replay(log + more)
    ensures Replay(log + more)[name].timedOut && Replay(log + more)[name].status != DEGRADED
  {
    if more == [] {
      assert log + more == log;
    } else {
      var e, before := more[|more| - 1], more[..|more| - 1];
      TimedOutForGood(log, before, name);
      assert (log + more)[..|log + more| - 1] == log + before;
      if e.Check? {
        CheckTouchesOne(Replay(log + before), e.order, e.now, e.timeout, name);
      }
    }
  }

  // ----- the class

  datatype Recovery = Recovery(sensors: Sensors, worst: byte, lastHealth: Option<u64>, degradedMode: bool)

  class SensorRecoveryManager {
    var sensors: Sensors
    var worst: byte
    var lastHealth: Option<u64>
    var degradedMode: bool

    function View(): Recovery
      reads this
    {
      Recovery(sensors, worst, lastHealth, degradedMode)
    }

    constructor ()
      ensures View() == Recovery(map[], UNKNOWN, None, false)
    {
      sensors, worst, lastHealth, degradedMode := map[], UNKNOWN, None, false;
    }

    method ProcessHealth(name: string, status: byte, now: u64) returns (r: HealthTransition)
      modifies this`sensors
      ensures sensors == old(sensors)[name := Report(Lookup(old(sensors), name), status, now)]
      ensures r == ReportTransition(Lookup(old(sensors), name), status)
    {
      if name !in sensors {
        sensors := sensors[name := SensorInfo(status, if status == DEGRADED then Some(now) else None, false)];
        return if status == DEGRADED then BecameDegraded else Unchanged;
      }
      var info := sensors[name];
      if info.timedOut && status == DEGRADED {
        return Unchanged;
      }
      var previous := info.status;
      if previous == status {
        return Unchanged;
      }
      info := info.(status := status);
      r := Unchanged;
      if status == DEGRADED {
        info := info.(degradedSince := Some(now));
        r := BecameDegraded;
      } else if previous == DEGRADED && status == HEALTHY {
        info := info.(degradedSince := None);
        r := Recovered;
      } else if status == FAULT {
        info := info.(degradedSince := None);
      }
      sensors := sensors[name := info];
    }

    /** Times out the first overdue sensor met while walking the table in `order`. */
    method CheckForTimeouts(now: u64, timeout: u64, order: seq<string>) returns (name: string)
      modifies this`sensors
      ensures (sensors, name) == CheckTimeouts(old(sensors), order, now, timeout)
    {
      for i := 0 to |order|
        invariant sensors == old(sensors)
        invariant FirstOverdue(sensors, order, now, timeout) == FirstOverdue(sensors, order[i..], now, timeout)
      {
        if order[i] in sensors {
          var info := sensors[order[i]];
          if info.status == DEGRADED && info.degradedSince.Some? {
            var elapsed := Sub64(now, info.degradedSince.value);
            if elapsed > timeout {
              sensors := sensors[order[i] := info.(timedOut := true, degradedSince := None)];
              return order[i];
            }
          }
        }
      }
      return "";
    }

    method UpdateSummary(status: byte, now: u64)
      modifies this`worst, this`lastHealth
      ensures View() == old(View()).(worst := status, lastHealth := Some(now))
    {
      worst := status;
      lastHealth := Some(now);
    }

    method IsAnyDegraded() returns (r: bool)
      ensures r <==> AnyDegraded(sensors)
    {
      var left := sensors.Keys;
      while left != {}
        invariant left <= sensors.Keys
        invariant forall name :: name in sensors && name !in left ==> sensors[name].status != DEGRADED
        decreases left
      {
        var name :| name in left;
        if sensors[name].status == DEGRADED {
          return true;
        }
        left := left - {name};
      }
      return false;
    }

    method SetDegradedMode(value: bool)
      modifies this`degradedMode
      ensures View() == old(View()).(degradedMode := value)
    {
      degradedMode := value;
    }
  }
}
