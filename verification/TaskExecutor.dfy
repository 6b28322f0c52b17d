/**
 * `TaskExecutor`: releases periodic tasks, with bounded catch-up, a watchdog on lateness and overflow guards.
 * What a callback returns, and what the clock reads after it, come from an environment indexed by call number.
 */
module TaskExecution {
  import opened Numeric
  import opened ModeMachine

  const TIME_MAX := 0x7FFF_FFFF_FFFF_FFFF

  /** Nanoseconds of a clock that does not start below zero. */
  type Time = t: int | 0 <= t <= TIME_MAX

  datatype CatchUpPolicy = SingleStep | BoundedCatchUp

  datatype Slot = Slot(used: bool, period: int, nextRelease: Time)

  datatype CallOutcome = CallOutcome(status: Status, clockAfter: Time)

  type Environment = nat -> CallOutcome

  datatype Call = Call(slot: nat, release: Time)

  /** Why a run gives up on a slot, and with it on the slots after it. */
  datatype Cause = BadPeriod | Overflow | Watchdog | TaskError(status: Status) | Overrun

  function CauseStatus(cause: Cause): Status {
    match cause
    case BadPeriod => Fault
    case Overflow => Fault
    case Watchdog => DeadlineMiss
    case TaskError(status) => status
    case Overrun => DeadlineMiss
  }

  datatype Settings = Settings(defaultPeriod: int, watchdog: int, policy: CatchUpPolicy, limit: nat)
  {
    predicate Sound() {
      0 < limit
    }

    /** Runs allowed for one slot in one call. */
    function Allowance(): nat {
      if policy.SingleStep? then 1 else limit
    }
  }

  // ----- one slot

  datatype SlotRun = SlotRun(slot: Slot, halt: Option<Cause>, releases: seq<Time>)

  predicate Late(cfg: Settings, slot: Slot, now: Time) {
    0 < cfg.watchdog < now - slot.nextRelease
  }

  /** The inner loop, after `done` runs of this slot and `k` calls in all. */
  function RunSlot(cfg: Settings, slot: Slot, now: Time, env: Environment, k: nat, done: nat): SlotRun
    decreases now - slot.nextRelease + 1
  {
    var release := slot.nextRelease;
    if now < release then SlotRun(slot, None, [])
    else if slot.period <= 0 then SlotRun(slot, Some(BadPeriod), [])
    else if release > TIME_MAX - slot.period then SlotRun(slot, Some(Overflow), [])
    else if Late(cfg, slot, now) then SlotRun(slot, Some(Watchdog), [])
    else
      var outcome := env(k);
      var next := slot.(nextRelease := release + slot.period);
      if outcome.status != Ok then SlotRun(next, Some(TaskError(outcome.status)), [release])
      else if outcome.clockAfter > release + slot.period then SlotRun(next, Some(Overrun), [release])
      else if cfg.policy.SingleStep? || done + 1 >= cfg.limit then SlotRun(next, None, [release])
      else
        var rest := RunSlot(cfg, next, now, env, k + 1, done + 1);
        rest.(releases := [release] + rest.releases)
  }

  /** `n` releases from `first`, one period apart. */
  function Progression(first: int, period: int, n: nat): (s: seq<int>)
    ensures |s| == n
    decreases n
  {
    if n == 0 then [] else [first] + Progression(first + period, period, n - 1)
  }

  lemma Distribute(m: int, n: int, period: int)
    ensures (m + n) * period == m * period + n * period
  {
  }

  lemma {:induction false} ProgressionAt(first: int, period: int, n: nat, i: nat)
    requires i < n
    ensures Progression(first, period, n)[i] == first + i * period
    decreases n
  {
    if i > 0 {
      ProgressionAt(first + period, period, n - 1, i - 1);
      Distribute(i - 1, 1, period);
    }
  }

  lemma {:induction false} ProgressionConcat(first: int, period: int, m: nat, next: int, n: nat)
    requires next == first + m * period
    ensures Progression(first, period, m + n) == Progression(first, period, m) + Progression(next, period, n)
    decreases m
  {
    if m > 0 {
      Distribute(m - 1, 1, period);
      ProgressionConcat(first + period, period, m - 1, next, n);
    }
  }

  /** Releases that are due at `now` and not yet run. */
  function Backlog(release: int, period: int, now: int): nat
    requires 0 < period
    decreases now - release + 1
  {
    if now < release then 0 else Backlog(release + period, period, now) + 1
  }

  /** The backlog counts the releases at or before `now`. */
  lemma {:induction false} BacklogMeaning(release: int, period: int, now: int)
    requires 0 < period
    ensures var n := Backlog(release, period, now);
            now < release + n * period && (0 < n ==> release + (n - 1) * period <= now)
    decreases now - release + 1
  {
    if release <= now {
      var n: int := Backlog(release + period, period, now);
      BacklogMeaning(release + period, period, now);
      Distribute(n, 1, period);
      Distribute(n - 1, 1, period);
    }
  }

  function Following(slot: Slot): Slot
    requires 0 < slot.period && slot.nextRelease + slot.period <= TIME_MAX
  {
    slot.(nextRelease := slot.nextRelease + slot.period)
  }

  /** However it ends, a slot runs its releases in order, one period apart, none before it is due, and loses none. */
  lemma {:induction false} SlotProgress(cfg: Settings, slot: Slot, now: Time, env: Environment, k: nat, done: nat)
    ensures var r := RunSlot(cfg, slot, now, env, k, done);
            && r.releases == Progression(slot.nextRelease, slot.period, |r.releases|)
            && r.slot.used == slot.used && r.slot.period == slot.period
            && r.slot.nextRelease == slot.nextRelease + |r.releases| * slot.period
            && (forall t :: t in r.releases ==> t <= now)
    decreases now - slot.nextRelease + 1
  {
    var r := RunSlot(cfg, slot, now, env, k, done);
    if |r.releases| > 1 {
      SlotProgress(cfg, Following(slot), now, env, k + 1, done + 1);
      Distribute(|r.releases| - 1, 1, slot.period);
    }
  }

  /** A slot that is not given up on runs its backlog, or as much of it as the allowance permits. */
  lemma {:induction false} SlotQuota(cfg: Settings, slot: Slot, now: Time, env: Environment, k: nat, done: nat)
    requires cfg.Sound() && 0 < slot.period && done < cfg.Allowance()
    requires RunSlot(cfg, slot, now, env, k, done).halt.None?
    ensures var n, room := |RunSlot(cfg, slot, now, env, k, done).releases|, cfg.Allowance() - done;
            var due := Backlog(slot.nextRelease, slot.period, now);
            n == if due <= room then due else room
    decreases now - slot.nextRelease + 1
  {
    if slot.nextRelease <= now && done + 1 < cfg.Allowance() {
      SlotQuota(cfg, Following(slot), now, env, k + 1, done + 1);
    }
  }

  // ----- why a slot stops

  /** A release that can be run: due, with a deadline in range, and not too late for the watchdog. */
  predicate Runnable(cfg: Settings, period: int, release: Time, now: Time) {
    release <= now && 0 < period && release + period <= TIME_MAX && !(0 < cfg.watchdog < now - release)
  }

  /** A run that lets the slot go on: the callback succeeds and the clock has not passed the deadline after it. */
  predicate Smoothly(outcome: CallOutcome, deadline: int) {
    outcome.status == Ok && outcome.clockAfter <= deadline
  }

  /** Every run of `r` was due, in range and in time, and all but the last went smoothly. */
  ghost predicate RunsAllowed(cfg: Settings, slot: Slot, now: Time, env: Environment, k: nat, r: SlotRun) {
    && (forall j :: 0 <= j < |r.releases| ==> Runnable(cfg, slot.period, r.releases[j], now))
    && (forall j :: 0 <= j < |r.releases| - 1 ==> Smoothly(env(k + j), r.releases[j] + slot.period))
  }

  /** The reason for which `r` stops, in terms of its last run and of what would come next. */
  predicate StopsFor(cfg: Settings, now: Time, env: Environment, k: nat, done: nat, r: SlotRun) {
    var n, next, period := |r.releases|, r.slot.nextRelease, r.slot.period;
    var smooth := n > 0 ==> Smoothly(env(k + n - 1), next);
    var more := next <= now && (n > 0 ==> cfg.policy.BoundedCatchUp? && done + n < cfg.limit);
    match r.halt
    case None => smooth && !more
    case Some(BadPeriod) => smooth && more && period <= 0
    case Some(Overflow) => smooth && more && 0 < period && TIME_MAX < next + period
    case Some(Watchdog) =>
      smooth && more && 0 < period && next + period <= TIME_MAX && 0 < cfg.watchdog && cfg.watchdog < now - next
    case Some(TaskError(status)) => n > 0 && env(k + n - 1).status == status && status != Ok
    case Some(Overrun) => n > 0 && env(k + n - 1).status == Ok && next < env(k + n - 1).clockAfter
  }

  /**
   * What the inner loop does to a slot: it runs what is due, in range and in time, and stops for the first reason not
   * to go on, which is the one it reports.
   */
  lemma {:induction false} SlotDecides(cfg: Settings, slot: Slot, now: Time, env: Environment, k: nat, done: nat)
    ensures var r := RunSlot(cfg, slot, now, env, k, done);
            RunsAllowed(cfg, slot, now, env, k, r) && StopsFor(cfg, now, env, k, done, r)
    decreases now - slot.nextRelease + 1
  {
    var r := RunSlot(cfg, slot, now, env, k, done);
    if |r.releases| > 1 {
      var rest := RunSlot(cfg, Following(slot), now, env, k + 1, done + 1);
      SlotDecides(cfg, Following(slot), now, env, k + 1, done + 1);
      assert r == rest.(releases := [slot.nextRelease] + rest.releases);
      ShiftRuns(cfg, slot, now, env, k, done, rest, r);
    }
  }

  /** One run before those of `rest`. */
  lemma ShiftRuns(
    cfg: Settings, slot: Slot, now: Time, env: Environment, k: nat, done: nat, rest: SlotRun, r: SlotRun)
    requires r == rest.(releases := [slot.nextRelease] + rest.releases) && |rest.releases| > 0
    requires Runnable(cfg, slot.period, slot.nextRelease, now)
    requires Smoothly(env(k), slot.nextRelease + slot.period)
    requires RunsAllowed(cfg, Following(slot), now, env, k + 1, rest) && StopsFor(cfg, now, env, k + 1, done + 1, rest)
    ensures RunsAllowed(cfg, slot, now, env, k, r) && StopsFor(cfg, now, env, k, done, r)
  {
    forall j | 0 <= j < |r.releases| ensures Runnable(cfg, slot.period, r.releases[j], now) {
      if j > 0 {
        assert r.releases[j] == rest.releases[j - 1];
      }
    }
    forall j | 0 <= j < |r.releases| - 1 ensures Smoothly(env(k + j), r.releases[j] + slot.period) {
      if j > 0 {
        assert r.releases[j] == rest.releases[j - 1];
        assert k + j == (k + 1) + (j - 1);
      }
    }
    assert k + |r.releases| - 1 == (k + 1) + |rest.releases| - 1;
  }

  // ----- one call of `run_due`

  datatype Halt = Halt(slot: nat, cause: Cause)

  datatype RunResult = RunResult(slots: seq<Slot>, halt: Option<Halt>, calls: seq<Call>)

  function CallsOf(slot: nat, releases: seq<Time>): seq<Call> {
    seq(|releases|, i requires 0 <= i < |releases| => Call(slot, releases[i]))
  }

  /** The outer loop from slot `i` on, after `k` calls. */
  function RunFrom(cfg: Settings, slots: seq<Slot>, i: nat, now: Time, env: Environment, k: nat): (r: RunResult)
    requires i <= |slots|
    ensures |r.slots| == |slots|
    ensures r.halt.Some? ==> i <= r.halt.value.slot < |slots|
    decreases |slots| - i
  {
    if i == |slots| then RunResult(slots, None, [])
    else if !slots[i].used then RunFrom(cfg, slots, i + 1, now, env, k)
    else
      var r := RunSlot(cfg, slots[i], now, env, k, 0);
      var after := slots[i := r.slot];
      if r.halt.Some? then RunResult(after, Some(Halt(i, r.halt.value)), CallsOf(i, r.releases))
      else
        var rest := RunFrom(cfg, after, i + 1, now, env, k + |r.releases|);
        rest.(calls := CallsOf(i, r.releases) + rest.calls)
  }

  /** The releases of slot `i`, in the order in which they were run. */
  function ReleasesOf(calls: seq<Call>, i: nat): seq<Time> {
    if calls == [] then []
    else (if calls[0].slot == i then [calls[0].release] else []) + ReleasesOf(calls[1..], i)
  }

  lemma ReleasesOfCons(c: Call, s: seq<Call>, i: nat)
    ensures ReleasesOf([c] + s, i) == (if c.slot == i then [c.release] else []) + ReleasesOf(s, i)
  {
    assert ([c] + s)[1..] == s;
  }

  lemma {:induction false} ReleasesOfConcat(a: seq<Call>, b: seq<Call>, i: nat)
    ensures ReleasesOf(a + b, i) == ReleasesOf(a, i) + ReleasesOf(b, i)
  {
    if a == [] {
      assert a + b == b;
    } else {
      var c, rest := a[0], a[1..];
      assert a == [c] + rest;
      assert a + b == [c] + (rest + b);
      ReleasesOfConcat(rest, b, i);
      ReleasesOfCons(c, rest, i);
      ReleasesOfCons(c, rest + b, i);
      var own := if c.slot == i then [c.release] else [];
      assert ReleasesOf(a + b, i) == own + (ReleasesOf(rest, i) + ReleasesOf(b, i));
    }
  }

  lemma {:induction false} ReleasesOfCallsOf(slot: nat, releases: seq<Time>, i: nat)
    ensures ReleasesOf(CallsOf(slot, releases), i) == if i == slot then releases else []
  {
    if releases != [] {
      assert CallsOf(slot, releases)[1..] == CallsOf(slot, releases[1..]);
      ReleasesOfCallsOf(slot, releases[1..], i);
    }
  }

  /** The run from slot `i` on stops before slot `j` or passes over it. */
  predicate Skips(slots: seq<Slot>, i: nat, r: RunResult, j: nat)
    requires j < |slots|
  {
    j < i || !slots[j].used || (r.halt.Some? && r.halt.value.slot < j)
  }

  /** What a run did to slot `j`. */
  function Fate(r: RunResult, j: nat): SlotRun
    requires j < |r.slots|
  {
    SlotRun(
      r.slots[j],
      if r.halt.Some? && r.halt.value.slot == j then Some(r.halt.value.cause) else None,
      ReleasesOf(r.calls, j))
  }

  /** The slot went through exactly one pass of the inner loop. */
  ghost predicate Passed(cfg: Settings, before: Slot, fate: SlotRun, now: Time, env: Environment) {
    exists k: nat :: RunSlot(cfg, before, now, env, k, 0) == fate
  }

  lemma RunSplits(cfg: Settings, slots: seq<Slot>, i: nat, now: Time, env: Environment, k: nat, j: nat)
    requires i < |slots| && slots[i].used && RunSlot(cfg, slots[i], now, env, k, 0).halt.None?
    ensures var r := RunSlot(cfg, slots[i], now, env, k, 0);
            var rest := RunFrom(cfg, slots[i := r.slot], i + 1, now, env, k + |r.releases|);
            ReleasesOf(RunFrom(cfg, slots, i, now, env, k).calls, j)
              == (if i == j then r.releases else []) + ReleasesOf(rest.calls, j)
  {
    var r := RunSlot(cfg, slots[i], now, env, k, 0);
    var rest := RunFrom(cfg, slots[i := r.slot], i + 1, now, env, k + |r.releases|);
    assert RunFrom(cfg, slots, i, now, env, k).calls == CallsOf(i, r.releases) + rest.calls;
    ReleasesOfCallsOf(i, r.releases, j);
    ReleasesOfConcat(CallsOf(i, r.releases), rest.calls, j);
  }

  /** Slots before `i`, unused ones, and those behind the slot that halts the run are left alone. */
  lemma {:induction false} RunSkips(
    cfg: Settings, slots: seq<Slot>, i: nat, now: Time, env: Environment, k: nat, j: nat)
    requires i <= |slots| && j < |slots| && Skips(slots, i, RunFrom(cfg, slots, i, now, env, k), j)
    ensures var r := RunFrom(cfg, slots, i, now, env, k); r.slots[j] == slots[j] && ReleasesOf(r.calls, j) == []
    decreases |slots| - i
  {
    if i < |slots| {
      if !slots[i].used {
        RunSkips(cfg, slots, i + 1, now, env, k, j);
      } else {
        var r := RunSlot(cfg, slots[i], now, env, k, 0);
        if r.halt.None? {
          RunSplits(cfg, slots, i, now, env, k, j);
          RunSkips(cfg, slots[i := r.slot], i + 1, now, env, k + |r.releases|, j);
        } else {
          ReleasesOfCallsOf(i, r.releases, j);
        }
      }
    }
  }

  lemma FateHere(cfg: Settings, slots: seq<Slot>, i: nat, now: Time, env: Environment, k: nat)
    requires i < |slots| && slots[i].used
    ensures Fate(RunFrom(cfg, slots, i, now, env, k), i) == RunSlot(cfg, slots[i], now, env, k, 0)
  {
    var r := RunSlot(cfg, slots[i], now, env, k, 0);
    if r.halt.Some? {
      ReleasesOfCallsOf(i, r.releases, i);
    } else {
      RunSplits(cfg, slots, i, now, env, k, i);
      RunSkips(cfg, slots[i := r.slot], i + 1, now, env, k + |r.releases|, i);
    }
  }

  lemma FateLater(cfg: Settings, slots: seq<Slot>, i: nat, now: Time, env: Environment, k: nat, j: nat)
    requires i < j < |slots| && slots[i].used && RunSlot(cfg, slots[i], now, env, k, 0).halt.None?
    ensures var r := RunSlot(cfg, slots[i], now, env, k, 0);
            Fate(RunFrom(cfg, slots, i, now, env, k), j)
              == Fate(RunFrom(cfg, slots[i := r.slot], i + 1, now, env, k + |r.releases|), j)
  {
    RunSplits(cfg, slots, i, now, env, k, j);
  }

  /** Every other slot gets exactly one pass of the inner loop, the last one up to its halt. */
  lemma {:induction false} RunPasses(
    cfg: Settings, slots: seq<Slot>, i: nat, now: Time, env: Environment, k: nat, j: nat)
    requires i <= |slots| && j < |slots| && !Skips(slots, i, RunFrom(cfg, slots, i, now, env, k), j)
    ensures Passed(cfg, slots[j], Fate(RunFrom(cfg, slots, i, now, env, k), j), now, env)
    decreases |slots| - i
  {
    if !slots[i].used {
      RunPasses(cfg, slots, i + 1, now, env, k, j);
    } else if i == j {
      FateHere(cfg, slots, i, now, env, k);
    } else {
      var r := RunSlot(cfg, slots[i], now, env, k, 0);
      FateLater(cfg, slots, i, now, env, k, j);
      RunPasses(cfg, slots[i := r.slot], i + 1, now, env, k + |r.releases|, j);
    }
  }

  lemma PassProgress(cfg: Settings, before: Slot, fate: SlotRun, now: Time, env: Environment)
    requires Passed(cfg, before, fate, now, env)
    ensures fate.releases == Progression(before.nextRelease, before.period, |fate.releases|)
    ensures fate.slot.used == before.used && fate.slot.period == before.period
    ensures fate.slot.nextRelease == before.nextRelease + |fate.releases| * before.period
    ensures forall t :: t in fate.releases ==> t <= now
  {
    var k: nat :| RunSlot(cfg, before, now, env, k, 0) == fate;
    SlotProgress(cfg, before, now, env, k, 0);
  }

  /** What a whole run does to slot `j`. */
  lemma RunTouches(x: Executor, now: Time, env: Environment, j: nat)
    requires j < |x.slots|
    ensures var r := Due(x, now, env);
            if Skips(x.slots, 0, r, j) then r.slots[j] == x.slots[j] && ReleasesOf(r.calls, j) == []
            else Passed(x.cfg, x.slots[j], Fate(r, j), now, env)
  {
    if Skips(x.slots, 0, Due(x, now, env), j) {
      RunSkips(x.cfg, x.slots, 0, now, env, 0, j);
    } else {
      RunPasses(x.cfg, x.slots, 0, now, env, 0, j);
    }
  }

  // ----- the status of a call

  function HaltStatus(halt: Option<Halt>): Status {
    if halt.Some? then CauseStatus(halt.value.cause) else Ok
  }

  lemma {:induction false} SlotHaltIsNeverOk(
    cfg: Settings, slot: Slot, now: Time, env: Environment, k: nat, done: nat)
    ensures var halt := RunSlot(cfg, slot, now, env, k, done).halt; halt.Some? ==> CauseStatus(halt.value) != Ok
    decreases now - slot.nextRelease + 1
  {
    if |RunSlot(cfg, slot, now, env, k, done).releases| > 1 {
      SlotHaltIsNeverOk(cfg, Following(slot), now, env, k + 1, done + 1);
    }
  }

  /** A call answers Ok if and only if it gave up on no slot. */
  lemma {:induction false} OkMeansNoHalt(cfg: Settings, slots: seq<Slot>, i: nat, now: Time, env: Environment, k: nat)
    requires i <= |slots|
    ensures var halt := RunFrom(cfg, slots, i, now, env, k).halt; HaltStatus(halt) == Ok <==> halt.None?
    decreases |slots| - i
  {
    if i < |slots| {
      if !slots[i].used {
        OkMeansNoHalt(cfg, slots, i + 1, now, env, k);
      } else {
        var r := RunSlot(cfg, slots[i], now, env, k, 0);
        SlotHaltIsNeverOk(cfg, slots[i], now, env, k, 0);
        if r.halt.None? {
          OkMeansNoHalt(cfg, slots[i := r.slot], i + 1, now, env, k + |r.releases|);
        }
      }
    }
  }

  // ----- the executor over its whole life

  /** `log` holds every callback ever run. */
  datatype Executor = Executor(slots: seq<Slot>, cfg: Settings, log: seq<Call>)

  datatype Op =
    | AddTask(present: bool, period: int, now: Time)
    | RunDue(now: Time, env: Environment)
    | SetPolicy(policy: CatchUpPolicy, maxRuns: nat)
    | ApplyConfig(maxTasks: nat, controlPeriod: int, watchdogPeriod: int)

  function FirstFree(slots: seq<Slot>, i: nat): (r: nat)
    requires i <= |slots|
    ensures i <= r <= |slots|
    ensures r < |slots| ==> !slots[r].used
    ensures forall j :: i <= j < r ==> slots[j].used
    decreases |slots| - i
  {
    if i == |slots| || !slots[i].used then i else FirstFree(slots, i + 1)
  }

  function EffectivePeriod(cfg: Settings, period: int): int {
    if period == 0 then cfg.defaultPeriod else period
  }

  /** A task is taken exactly when it exists, has a positive period that fits, and a slot is free. */
  predicate CanAdd(x: Executor, present: bool, period: int, now: Time) {
    var p := EffectivePeriod(x.cfg, period);
    present && 0 < p && FirstFree(x.slots, 0) < |x.slots| && now <= TIME_MAX - p
  }

  /** A task that does not exist or has no period is refused at once, any other refusal is a fault. */
  function AddStatus(x: Executor, present: bool, period: int, now: Time): (r: Status)
    ensures r == Ok <==> CanAdd(x, present, period, now)
  {
    if !present || EffectivePeriod(x.cfg, period) == 0 then InvalidState
    else if CanAdd(x, present, period, now) then Ok
    else Fault
  }

  function Due(x: Executor, now: Time, env: Environment): RunResult {
    RunFrom(x.cfg, x.slots, 0, now, env, 0)
  }

  /** What `run_due` returns. */
  function Answer(x: Executor, now: Time, env: Environment): Status {
    HaltStatus(Due(x, now, env).halt)
  }

  function Apply(x: Executor, op: Op): Executor {
    match op
    case AddTask(present, period, now) =>
      if CanAdd(x, present, period, now) then
        var p := EffectivePeriod(x.cfg, period);
        x.(slots := x.slots[FirstFree(x.slots, 0) := Slot(true, p, now + p)])
      else x
    case RunDue(now, env) =>
      var r := Due(x, now, env);
      x.(slots := r.slots, log := x.log + r.calls)
    case SetPolicy(policy, maxRuns) =>
      x.(cfg := x.cfg.(policy := policy, limit := if maxRuns == 0 then 1 else maxRuns))
    case ApplyConfig(maxTasks, controlPeriod, watchdogPeriod) =>
      if maxTasks > |x.slots| then x
      else x.(cfg := x.cfg.(defaultPeriod := controlPeriod, watchdog := watchdogPeriod))
  }

  function ApplyAll(x: Executor, ops: seq<Op>): Executor
    decreases |ops|
  {
    if ops == [] then x else ApplyAll(Apply(x, ops[0]), ops[1..])
  }

  function Fresh(capacity: nat): Executor {
    Executor(seq(capacity, _ => Slot(false, 0, 0)), Settings(0, 0, SingleStep, 1), [])
  }

  /** The release a slot that has run `n` times was first due for. */
  function Origin(slot: Slot, n: nat): int {
    slot.nextRelease - n * slot.period
  }

  function FirstRelease(x: Executor, i: nat): int
    requires i < |x.slots|
  {
    Origin(x.slots[i], |ReleasesOf(x.log, i)|)
  }

  /** Slot `i` has run exactly the releases from its first one up to, not including, its next one. */
  predicate OnSchedule(x: Executor, i: nat)
    requires i < |x.slots|
  {
    var runs := ReleasesOf(x.log, i);
    if x.slots[i].used then
      0 < x.slots[i].period && runs == Progression(FirstRelease(x, i), x.slots[i].period, |runs|)
    else runs == []
  }

  ghost predicate Inv(x: Executor) {
    x.cfg.Sound() && forall i :: 0 <= i < |x.slots| ==> OnSchedule(x, i)
  }

  lemma RunKeepsSchedule(x: Executor, now: Time, env: Environment, i: nat)
    requires i < |x.slots| && OnSchedule(x, i)
    ensures var y := Apply(x, RunDue(now, env));
            && OnSchedule(y, i)
            && y.slots[i].used == x.slots[i].used
            && (x.slots[i].used ==> y.slots[i].period == x.slots[i].period && FirstRelease(y, i) == FirstRelease(x, i))
  {
    var r := Due(x, now, env);
    var runs, more := ReleasesOf(x.log, i), ReleasesOf(r.calls, i);
    RunTouches(x, now, env, i);
    ReleasesOfConcat(x.log, r.calls, i);
    if !Skips(x.slots, 0, r, i) {
      PassProgress(x.cfg, x.slots[i], Fate(r, i), now, env);
      if x.slots[i].used {
        RunsExtend(FirstRelease(x, i), x.slots[i].period, runs, x.slots[i].nextRelease, more);
        OriginKept(x.slots[i], r.slots[i], |runs|, |more|);
      }
    }
  }

  lemma OriginKept(before: Slot, after: Slot, m: nat, n: nat)
    requires after.period == before.period && after.nextRelease == before.nextRelease + n * before.period
    ensures Origin(after, m + n) == Origin(before, m)
  {
    Distribute(m, n, before.period);
  }

  lemma RunsExtend(first: int, period: int, runs: seq<int>, next: int, more: seq<int>)
    requires next == first + |runs| * period
    requires runs == Progression(first, period, |runs|) && more == Progression(next, period, |more|)
    ensures runs + more == Progression(first, period, |runs| + |more|)
  {
    ProgressionConcat(first, period, |runs|, next, |more|);
  }

  lemma ApplyKeeps(x: Executor, op: Op)
    requires Inv(x)
    ensures Inv(Apply(x, op)) && |Apply(x, op).slots| == |x.slots|
    ensures forall i :: 0 <= i < |x.slots| && x.slots[i].used ==>
              Apply(x, op).slots[i].used && Apply(x, op).slots[i].period == x.slots[i].period
              && FirstRelease(Apply(x, op), i) == FirstRelease(x, i)
  {
    var y := Apply(x, op);
    forall i | 0 <= i < |x.slots|
      ensures OnSchedule(y, i)
      ensures x.slots[i].used ==>
                y.slots[i].used && y.slots[i].period == x.slots[i].period && FirstRelease(y, i) == FirstRelease(x, i)
    {
      assert OnSchedule(x, i);
      if op.RunDue? {
        RunKeepsSchedule(x, op.now, op.env, i);
      }
    }
  }

  /**
   * Over every sequence of operations each task keeps its own schedule, free of drift: the releases it has run are
   * the first `n` of an arithmetic progression that starts at its first release, and the next one is the `n`-th.
   */
  lemma {:induction false} RunsKeepSchedule(x: Executor, ops: seq<Op>)
    requires Inv(x)
    ensures Inv(ApplyAll(x, ops)) && |ApplyAll(x, ops).slots| == |x.slots|
    ensures forall i :: 0 <= i < |x.slots| && x.slots[i].used ==>
              ApplyAll(x, ops).slots[i].used
              && ApplyAll(x, ops).slots[i].period == x.slots[i].period
              && FirstRelease(ApplyAll(x, ops), i) == FirstRelease(x, i)
    decreases |ops|
  {
    if ops != [] {
      ApplyKeeps(x, ops[0]);
      RunsKeepSchedule(Apply(x, ops[0]), ops[1..]);
    }
  }

  /** A call in terms of its slots: every used slot up to the one that halts it, and no other, is run as it may be. */
  lemma CallDecides(x: Executor, now: Time, env: Environment, j: nat)
    requires j < |x.slots|
    ensures var r := Due(x, now, env);
            if x.slots[j].used && (r.halt.Some? ==> j <= r.halt.value.slot) then
              exists k: nat :: RunsAllowed(x.cfg, x.slots[j], now, env, k, Fate(r, j))
                && StopsFor(x.cfg, now, env, k, 0, Fate(r, j))
            else r.slots[j] == x.slots[j] && ReleasesOf(r.calls, j) == []
  {
    var r := Due(x, now, env);
    RunTouches(x, now, env, j);
    if x.slots[j].used && (r.halt.Some? ==> j <= r.halt.value.slot) {
      var k: nat :| RunSlot(x.cfg, x.slots[j], now, env, k, 0) == Fate(r, j);
      SlotDecides(x.cfg, x.slots[j], now, env, k, 0);
    }
  }

  /** A missed watchdog and an overrun answer with a deadline miss, a failed task with its own status. */
  lemma AnswerDecides(x: Executor, now: Time, env: Environment)
    ensures var halt := Due(x, now, env).halt;
            && (halt.None? ==> Answer(x, now, env) == Ok)
            && (halt.Some? && halt.value.cause in {BadPeriod, Overflow} ==> Answer(x, now, env) == Fault)
            && (halt.Some? && halt.value.cause in {Watchdog, Overrun} ==> Answer(x, now, env) == DeadlineMiss)
            && (halt.Some? && halt.value.cause.TaskError? ==> Answer(x, now, env) == halt.value.cause.status)
  {
  }

  /** When a task is taken, and with which answer it is refused; a refusal changes nothing. */
  lemma AddDecides(x: Executor, present: bool, period: int, now: Time)
    ensures var p := if period == 0 then x.cfg.defaultPeriod else period;
            var taken := present && 0 < p && now + p <= TIME_MAX && exists i :: 0 <= i < |x.slots| && !x.slots[i].used;
            && AddStatus(x, present, period, now) ==
                 (if !present || p == 0 then InvalidState else if taken then Ok else Fault)
            && (!taken ==> Apply(x, AddTask(present, period, now)) == x)
  {
    var i := FirstFree(x.slots, 0);
    if i < |x.slots| {
      assert !x.slots[i].used;
    }
  }

  /** One run for each slot and call under SingleStep, a positive limit under BoundedCatchUp. */
  lemma SettingsDecide(x: Executor, policy: CatchUpPolicy, maxRuns: nat, maxTasks: nat, period: int, watchdog: int)
    ensures var y := Apply(x, SetPolicy(policy, maxRuns));
            && y.slots == x.slots && y.log == x.log
            && y.cfg == Settings(x.cfg.defaultPeriod, x.cfg.watchdog, policy, if maxRuns == 0 then 1 else maxRuns)
            && y.cfg.Allowance() == if policy == SingleStep || maxRuns == 0 then 1 else maxRuns
    ensures Apply(x, ApplyConfig(maxTasks, period, watchdog)) ==
              if maxTasks <= |x.slots| then x.(cfg := Settings(period, watchdog, x.cfg.policy, x.cfg.limit)) else x
  {
  }

  /** A task that is taken starts one period from now, in a slot no other task has used, and disturbs no other slot. */
  lemma AddedTaskStarts(x: Executor, present: bool, period: int, now: Time)
    requires Inv(x) && CanAdd(x, present, period, now)
    ensures var y, i := Apply(x, AddTask(present, period, now)), FirstFree(x.slots, 0);
            && !x.slots[i].used && y.slots[i].used
            && FirstRelease(y, i) == now + y.slots[i].period && ReleasesOf(y.log, i) == []
            && (forall j :: 0 <= j < |x.slots| && j != i ==> y.slots[j] == x.slots[j])
  {
    assert OnSchedule(x, FirstFree(x.slots, 0));
  }

  /**
   * From construction on, whatever was added, run or reconfigured: a slot in use has run exactly the first `n`
   * releases of a progression by its period and waits for the next one; an unused slot has run nothing.
   */
  lemma LifeKeepsSchedule(capacity: nat, ops: seq<Op>, i: nat)
    requires i < capacity
    ensures var x := ApplyAll(Fresh(capacity), ops);
            && |x.slots| == capacity
            && var runs := ReleasesOf(x.log, i);
               if x.slots[i].used then
                 && 0 < x.slots[i].period
                 && runs == Progression(FirstRelease(x, i), x.slots[i].period, |runs|)
                 && x.slots[i].nextRelease == FirstRelease(x, i) + |runs| * x.slots[i].period
               else runs == []
  {
    assert Inv(Fresh(capacity));
    RunsKeepSchedule(Fresh(capacity), ops);
    assert OnSchedule(ApplyAll(Fresh(capacity), ops), i);
  }

  /** A call that answers Ok runs every slot exactly its backlog, up to the allowance, and nothing before it is due. */
  lemma CompletedRunsQuota(x: Executor, now: Time, env: Environment, i: nat)
    requires Inv(x) && i < |x.slots| && x.slots[i].used && Answer(x, now, env) == Ok
    ensures 0 < x.slots[i].period
    ensures var runs := ReleasesOf(Due(x, now, env).calls, i);
            var due := Backlog(x.slots[i].nextRelease, x.slots[i].period, now);
            && runs == Progression(x.slots[i].nextRelease, x.slots[i].period, |runs|)
            && |runs| == (if due <= x.cfg.Allowance() then due else x.cfg.Allowance())
            && (forall t :: t in runs ==> t <= now)
  {
    OkMeansNoHalt(x.cfg, x.slots, 0, now, env, 0);
    assert OnSchedule(x, i);
    RunTouches(x, now, env, i);
    var k: nat :| RunSlot(x.cfg, x.slots[i], now, env, k, 0) == Fate(Due(x, now, env), i);
    SlotProgress(x.cfg, x.slots[i], now, env, k, 0);
    SlotQuota(x.cfg, x.slots[i], now, env, k, 0);
  }

  /** With a clock that does not lag behind `now`, a call that answers Ok had no task more than one period late. */
  lemma CompletedMeansPunctual(x: Executor, now: Time, env: Environment, i: nat)
    requires Inv(x) && i < |x.slots| && x.slots[i].used && Answer(x, now, env) == Ok
    requires forall k: nat :: now <= env(k).clockAfter
    ensures now - x.slots[i].nextRelease <= x.slots[i].period
  {
    OkMeansNoHalt(x.cfg, x.slots, 0, now, env, 0);
    assert OnSchedule(x, i);
    RunTouches(x, now, env, i);
    var k: nat :| RunSlot(x.cfg, x.slots[i], now, env, k, 0) == Fate(Due(x, now, env), i);
    assert now <= env(k).clockAfter;
  }

  /**
   * With such a clock bounded catch-up never gets far: a call that answers Ok runs a task that is due once, or
   * twice when it is late by exactly one period and two runs are allowed.
   */
  lemma CatchUpIsAtMostTwo(x: Executor, now: Time, env: Environment, i: nat)
    requires Inv(x) && i < |x.slots| && x.slots[i].used && Answer(x, now, env) == Ok
    requires forall k: nat :: now <= env(k).clockAfter
    ensures var lag := now - x.slots[i].nextRelease;
            |ReleasesOf(Due(x, now, env).calls, i)|
              == if lag < 0 then 0 else if lag == x.slots[i].period && 2 <= x.cfg.Allowance() then 2 else 1
  {
    CompletedMeansPunctual(x, now, env, i);
    CompletedRunsQuota(x, now, env, i);
    ShortBacklog(x.slots[i].nextRelease, x.slots[i].period, now);
  }

  lemma ShortBacklog(release: int, period: int, now: int)
    requires 0 < period && now <= release + period
    ensures Backlog(release, period, now) == if now < release then 0 else if now == release + period then 2 else 1
  {
    assert Backlog(release + 2 * period, period, now) == 0;
    assert release + period + period == release + 2 * period;
  }

  // ----- the watchdog is fail-stop

  predicate Stalled(x: Executor, i: nat, now: Time) {
    i < |x.slots| && x.slots[i].used && Late(x.cfg, x.slots[i], now)
  }

  /** A watchdog report leaves its slot stalled, and answers with a deadline miss. */
  lemma WatchdogStalls(x: Executor, now: Time, env: Environment)
    requires Inv(x)
    requires var halt := Due(x, now, env).halt; halt.Some? && halt.value.cause.Watchdog?
    ensures Stalled(Apply(x, RunDue(now, env)), Due(x, now, env).halt.value.slot, now)
    ensures Answer(x, now, env) == DeadlineMiss
  {
    var r := Due(x, now, env);
    var i := r.halt.value.slot;
    RunTouches(x, now, env, i);
    HaltIsAtUsed(x.cfg, x.slots, 0, now, env, 0);
    var k: nat :| RunSlot(x.cfg, x.slots[i], now, env, k, 0) == Fate(r, i);
    WatchdogMeansLate(x.cfg, x.slots[i], now, env, k, 0);
    SlotProgress(x.cfg, x.slots[i], now, env, k, 0);
  }

  lemma {:induction false} HaltIsAtUsed(cfg: Settings, slots: seq<Slot>, i: nat, now: Time, env: Environment, k: nat)
    requires i <= |slots|
    ensures var r := RunFrom(cfg, slots, i, now, env, k); r.halt.Some? ==> slots[r.halt.value.slot].used
    decreases |slots| - i
  {
    if i < |slots| {
      if !slots[i].used {
        HaltIsAtUsed(cfg, slots, i + 1, now, env, k);
      } else {
        var r := RunSlot(cfg, slots[i], now, env, k, 0);
        if r.halt.None? {
          HaltIsAtUsed(cfg, slots[i := r.slot], i + 1, now, env, k + |r.releases|);
        }
      }
    }
  }

  lemma {:induction false} WatchdogMeansLate(
    cfg: Settings, slot: Slot, now: Time, env: Environment, k: nat, done: nat)
    requires RunSlot(cfg, slot, now, env, k, done).halt == Some(Watchdog)
    ensures Late(cfg, RunSlot(cfg, slot, now, env, k, done).slot, now)
    decreases now - slot.nextRelease + 1
  {
    if !Late(cfg, slot, now) {
      WatchdogMeansLate(cfg, Following(slot), now, env, k + 1, done + 1);
    }
  }

  /** No later call completes, and none runs or moves a stalled slot or any slot behind it. */
  lemma StalledBlocks(x: Executor, i: nat, t: Time, now: Time, env: Environment, j: nat)
    requires Inv(x) && Stalled(x, i, t) && t <= now && i <= j < |x.slots|
    ensures Due(x, now, env).halt.Some?
    ensures Due(x, now, env).slots[j] == x.slots[j] && ReleasesOf(Due(x, now, env).calls, j) == []
  {
    var r := Due(x, now, env);
    RunTouches(x, now, env, i);
    RunTouches(x, now, env, j);
    if r.halt.None? || i <= r.halt.value.slot {
      var k: nat :| RunSlot(x.cfg, x.slots[i], now, env, k, 0) == Fate(r, i);
      assert RunSlot(x.cfg, x.slots[i], now, env, k, 0).halt.Some?;
    }
  }

  /** An operation that neither goes back before `t` nor changes the watchdog period. */
  predicate KeepsWatch(op: Op, watchdog: int, t: Time) {
    (op.ApplyConfig? ==> op.watchdogPeriod == watchdog) && (op.RunDue? ==> t <= op.now)
  }

  /**
   * A watchdog miss is fail-stop: over every later sequence of operations that keeps the watchdog period and does not
   * go back in time, no call answers Ok, and neither the missed slot nor any slot behind it, whether in use or filled
   * later, runs again.
   */
  lemma {:induction false} WatchdogIsFinal(x: Executor, i: nat, t: Time, ops: seq<Op>, now: Time, env: Environment)
    requires Inv(x) && Stalled(x, i, t) && t <= now
    requires forall op :: op in ops ==> KeepsWatch(op, x.cfg.watchdog, t)
    ensures var y := ApplyAll(x, ops);
            && |y.slots| == |x.slots|
            && Answer(y, now, env) != Ok
            && (forall j :: i <= j < |x.slots| ==>
                  ReleasesOf(y.log, j) == ReleasesOf(x.log, j) && (x.slots[j].used ==> y.slots[j] == x.slots[j]))
    decreases |ops|
  {
    if ops == [] {
      StalledBlocks(x, i, t, now, env, i);
      OkMeansNoHalt(x.cfg, x.slots, 0, now, env, 0);
    } else {
      var y := Apply(x, ops[0]);
      assert ops[0] in ops;
      ApplyKeeps(x, ops[0]);
      StallKept(x, i, t, ops[0]);
      WatchdogIsFinal(y, i, t, ops[1..], now, env);
    }
  }

  /** The same from the report itself: once a call reports a missed watchdog, no later one recovers. */
  lemma WatchdogReportIsFinal(x: Executor, t: Time, first: Environment, ops: seq<Op>, now: Time, env: Environment)
    requires Inv(x) && t <= now
    requires var halt := Due(x, t, first).halt; halt.Some? && halt.value.cause.Watchdog?
    requires forall op :: op in ops ==> KeepsWatch(op, x.cfg.watchdog, t)
    ensures var i, y := Due(x, t, first).halt.value.slot, Apply(x, RunDue(t, first));
            && Answer(ApplyAll(y, ops), now, env) != Ok
            && (forall j :: i <= j < |x.slots| ==> ReleasesOf(ApplyAll(y, ops).log, j) == ReleasesOf(y.log, j))
  {
    var y := Apply(x, RunDue(t, first));
    ApplyKeeps(x, RunDue(t, first));
    WatchdogStalls(x, t, first);
    WatchdogIsFinal(y, Due(x, t, first).halt.value.slot, t, ops, now, env);
  }

  lemma StallKept(x: Executor, i: nat, t: Time, op: Op)
    requires Inv(x) && Stalled(x, i, t) && KeepsWatch(op, x.cfg.watchdog, t)
    ensures Stalled(Apply(x, op), i, t) && Apply(x, op).cfg.watchdog == x.cfg.watchdog
    ensures forall j :: i <= j < |x.slots| ==>
              && ReleasesOf(Apply(x, op).log, j) == ReleasesOf(x.log, j)
              && (x.slots[j].used ==> Apply(x, op).slots[j] == x.slots[j])
  {
    if op.RunDue? {
      forall j | i <= j < |x.slots|
        ensures Apply(x, op).slots[j] == x.slots[j] && ReleasesOf(Apply(x, op).log, j) == ReleasesOf(x.log, j)
      {
        StalledBlocks(x, i, t, op.now, op.env, j);
        ReleasesOfConcat(x.log, Due(x, op.now, op.env).calls, j);
      }
    }
  }

  // ----- the class

  lemma Reassociate<T>(a: seq<T>, b: seq<T>, c: seq<T>)
    ensures a + (b + c) == (a + b) + c
  {
  }

  class TaskExecutor {
    const tasks: array<Slot>
    var defaultPeriod: int
    var watchdog: int
    var policy: CatchUpPolicy
    var limit: nat
    ghost var log: seq<Call>

    function CurrentSettings(): Settings
      reads this
    {
      Settings(defaultPeriod, watchdog, policy, limit)
    }

    ghost function View(): Executor
      reads this, tasks
    {
      Executor(tasks[..], CurrentSettings(), log)
    }

    constructor (capacity: nat)
      ensures fresh(tasks) && View() == Fresh(capacity)
    {
      tasks := new Slot[capacity](_ => Slot(false, 0, 0));
      defaultPeriod, watchdog, policy, limit, log := 0, 0, SingleStep, 1, [];
    }

    method SetCatchUpPolicy(newPolicy: CatchUpPolicy, maxRuns: nat)
      modifies this`policy, this`limit
      ensures View() == Apply(old(View()), SetPolicy(newPolicy, maxRuns))
    {
      policy := newPolicy;
      limit := if maxRuns == 0 then 1 else maxRuns;
    }

    method Configure(maxTasks: nat, controlPeriod: int, watchdogPeriod: int) returns (r: Status)
      modifies this`defaultPeriod, this`watchdog
      ensures View() == Apply(old(View()), ApplyConfig(maxTasks, controlPeriod, watchdogPeriod))
      ensures r == if maxTasks > tasks.Length then Fault else Ok
    {
      if maxTasks > tasks.Length {
        return Fault;
      }
      defaultPeriod := controlPeriod;
      watchdog := watchdogPeriod;
      return Ok;
    }

    method Add(present: bool, period: int, now: Time) returns (r: Status)
      modifies tasks
      ensures View() == Apply(old(View()), AddTask(present, period, now))
      ensures r == AddStatus(old(View()), present, period, now)
    {
      if !present {
        return InvalidState;
      }
      var usePeriod := if period == 0 then defaultPeriod else period;
      if usePeriod == 0 {
        return InvalidState;
      }
      for i := 0 to tasks.Length
        invariant tasks[..] == old(tasks[..])
        invariant FirstFree(tasks[..], 0) == FirstFree(tasks[..], i)
      {
        if !tasks[i].used {
          if usePeriod <= 0 {
            return Fault;
          }
          if now > TIME_MAX - usePeriod {
            return Fault;
          }
          tasks[i] := Slot(true, usePeriod, now + usePeriod);
          return Ok;
        }
      }
      return Fault;
    }

    /** The inner loop of `run_due`, on the contents of one slot and after `k` calls. */
    method RunOne(slot: Slot, now: Time, env: Environment, k: nat)
      returns (next: Slot, halt: Option<Cause>, releases: seq<Time>)
      ensures SlotRun(next, halt, releases) == RunSlot(CurrentSettings(), slot, now, env, k, 0)
    {
      next, halt, releases := slot, None, [];
      ghost var cfg := CurrentSettings();
      ghost var whole := RunSlot(cfg, slot, now, env, k, 0);
      while now >= next.nextRelease
        invariant halt.None?
        invariant var rest := RunSlot(cfg, next, now, env, k + |releases|, |releases|);
                  && whole.slot == rest.slot && whole.halt == rest.halt
                  && whole.releases == releases + rest.releases
        decreases now - next.nextRelease + 1
      {
        var release := next.nextRelease;
        if next.period <= 0 {
          halt := Some(BadPeriod);
          return;
        }
        if release > TIME_MAX - next.period {
          halt := Some(Overflow);
          return;
        }
        if watchdog > 0 && now - release > watchdog {
          halt := Some(Watchdog);
          return;
        }
        var deadline := release + next.period;
        var outcome := env(k + |releases|);
        next := next.(nextRelease := deadline);
        ghost var before := releases;
        releases := releases + [release];
        if outcome.status != Ok {
          halt := Some(TaskError(outcome.status));
          return;
        }
        if outcome.clockAfter > deadline {
          halt := Some(Overrun);
          return;
        }
        if policy == SingleStep || |releases| >= limit {
          return;
        }
        Reassociate(before, [release], RunSlot(cfg, next, now, env, k + |releases|, |releases|).releases);
      }
    }

    /** The outer loop of `run_due`. */
    method RunSlots(now: Time, env: Environment) returns (halt: Option<Halt>, calls: seq<Call>)
      modifies tasks
      ensures RunResult(tasks[..], halt, calls) == RunFrom(CurrentSettings(), old(tasks[..]), 0, now, env, 0)
    {
      calls := [];
      ghost var cfg, slots := CurrentSettings(), tasks[..];
      ghost var whole := RunFrom(cfg, slots, 0, now, env, 0);
      for i := 0 to tasks.Length
        invariant slots == tasks[..]
        invariant var rest := RunFrom(cfg, slots, i, now, env, |calls|);
                  whole == rest.(calls := calls + rest.calls)
      {
        if tasks[i].used {
          var next, cause, releases := RunOne(tasks[i], now, env, |calls|);
          tasks[i] := next;
          slots := slots[i := next];
          assert slots == tasks[..];
          if cause.Some? {
            return Some(Halt(i, cause.value)), calls + CallsOf(i, releases);
          }
          Reassociate(calls, CallsOf(i, releases), RunFrom(cfg, slots, i + 1, now, env, |calls| + |releases|).calls);
          calls := calls + CallsOf(i, releases);
        }
      }
      return None, calls;
    }

    method Run(now: Time, env: Environment) returns (r: Status, calls: seq<Call>)
      modifies this`log, tasks
      ensures View() == Apply(old(View()), RunDue(now, env))
      ensures calls == Due(old(View()), now, env).calls
      ensures r == Answer(old(View()), now, env)
    {
      var halt;
      halt, calls := RunSlots(now, env);
      log := log + calls;
      r := HaltStatus(halt);
    }
  }
}
