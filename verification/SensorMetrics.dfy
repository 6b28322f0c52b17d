/** The sliding windows of `SensorMonitorNode`: pruning, and time-weighted health percentages. */
module SensorMetrics {
  import opened Numeric
  import R = SensorRecovery

  const U32 := 0x1_0000_0000
  const NANOSECOND := 0.000000001

  datatype StatusSample = StatusSample(timestamp: u64, status: byte, rate: real)

  function Stamp(s: StatusSample): u64 {
    s.timestamp
  }

  function Itself(t: u64): u64 {
    t
  }

  // ----- pruning

  function Cutoff(now: u64, window: u64): u64 {
    if now >= window then now - window else 0
  }

  /** Drops entries from the front while they are older than `cutoff`. */
  function DropBefore<T>(s: seq<T>, stamp: T -> u64, cutoff: u64): seq<T> {
    if s != [] && stamp(s[0]) < cutoff then DropBefore(s[1..], stamp, cutoff) else s
  }

  /** The entries that are not older than `cutoff`, in their order. */
  function Recent<T>(s: seq<T>, stamp: T -> u64, cutoff: u64): seq<T> {
    if s == [] then []
    else (if cutoff <= stamp(s[0]) then [s[0]] else []) + Recent(s[1..], stamp, cutoff)
  }

  ghost predicate Ordered<T>(s: seq<T>, stamp: T -> u64) {
    forall i, j :: 0 <= i <= j < |s| ==> stamp(s[i]) <= stamp(s[j])
  }

  lemma {:induction false} RecentKeepsAll<T>(s: seq<T>, stamp: T -> u64, cutoff: u64)
    requires forall i :: 0 <= i < |s| ==> cutoff <= stamp(s[i])
    ensures Recent(s, stamp, cutoff) == s
  {
    if s != [] {
      RecentKeepsAll(s[1..], stamp, cutoff);
    }
  }

  /** For timestamps that never go back, pruning keeps exactly the entries inside the window. */
  lemma {:induction false} PruneKeepsWindow<T>(s: seq<T>, stamp: T -> u64, cutoff: u64)
    requires Ordered(s, stamp)
    ensures DropBefore(s, stamp, cutoff) == Recent(s, stamp, cutoff)
  {
    if s != [] {
      if stamp(s[0]) < cutoff {
        assert Ordered(s[1..], stamp);
        PruneKeepsWindow(s[1..], stamp, cutoff);
      } else {
        RecentKeepsAll(s, stamp, cutoff);
      }
    }
  }

  // ----- time accounting

  /** How long sample `i` lasted: until the next one, or until now. */
  function Lasted(h: seq<StatusSample>, now: u64, i: nat): u64
    requires i < |h|
  {
    Sub64(if i + 1 < |h| then h[i + 1].timestamp else now, h[i].timestamp)
  }

  /** Nanoseconds that the first `n` samples spent in one of `statuses`. */
  function Spent(h: seq<StatusSample>, now: u64, statuses: set<byte>, n: nat): nat
    requires n <= |h|
  {
    if n == 0 then 0
    else Spent(h, now, statuses, n - 1) + if h[n - 1].status in statuses then Lasted(h, now, n - 1) else 0
  }

  function SpentIn(h: seq<StatusSample>, now: u64, status: byte): nat {
    Spent(h, now, {status}, |h|)
  }

  const KNOWN: set<byte> := {R.HEALTHY, R.DEGRADED, R.FAULT}

  predicate Differs(h: seq<StatusSample>, i: nat) {
    0 < i < |h| && h[i].status != h[i - 1].status
  }

  /** Positions among the first `n` at which the status differs from the one before. */
  function Changes(h: seq<StatusSample>, n: nat): set<nat>
    requires n <= |h|
  {
    set i: nat | i < n && Differs(h, i)
  }

  lemma ChangesStep(h: seq<StatusSample>, n: nat)
    requires n < |h|
    ensures |Changes(h, n + 1)| == |Changes(h, n)| + if Differs(h, n) then 1 else 0
  {
    assert Changes(h, n + 1) == Changes(h, n) + if Differs(h, n) then {n} else {};
  }

  function TotalRate(h: seq<StatusSample>, n: nat): real
    requires n <= |h|
  {
    if n == 0 then 0.0 else TotalRate(h, n - 1) + h[n - 1].rate
  }

  datatype Metrics = Metrics(
    averageRate: real,
    minRate: real,
    healthy: real,
    degraded: real,
    fault: real,
    transitions: nat,
    windowNs: nat)

  /** Time stamps that never go back, up to now. */
  ghost predicate Chronological(h: seq<StatusSample>, now: u64) {
    Ordered(h, Stamp) && (h != [] ==> h[|h| - 1].timestamp <= now)
  }

  /** The statuses that occur. */
  function Statuses(h: seq<StatusSample>): set<byte> {
    set i | 0 <= i < |h| :: h[i].status
  }

  /** Durations telescope: the first `n` samples together last from the first stamp to the next one, or to now. */
  lemma {:induction false} DurationsTelescope(h: seq<StatusSample>, now: u64, n: nat)
    requires Chronological(h, now) && n <= |h| && h != []
    ensures Spent(h, now, Statuses(h), n) == (if n < |h| then h[n].timestamp else now) - h[0].timestamp
  {
    if n > 0 {
      DurationsTelescope(h, now, n - 1);
      assert h[n - 1].status in Statuses(h);
      assert Stamp(h[n - 1]) <= (if n < |h| then Stamp(h[n]) else now);
    }
  }

  lemma {:induction false} SpentSplits(h: seq<StatusSample>, now: u64, a: set<byte>, b: set<byte>, n: nat)
    requires n <= |h| && a !! b
    ensures Spent(h, now, a + b, n) == Spent(h, now, a, n) + Spent(h, now, b, n)
  {
    if n > 0 {
      SpentSplits(h, now, a, b, n - 1);
    }
  }

  lemma {:induction false} SpentIgnoresAbsent(h: seq<StatusSample>, now: u64, a: set<byte>, n: nat)
    requires n <= |h|
    ensures Spent(h, now, a, n) == Spent(h, now, a * Statuses(h), n)
  {
    if n > 0 {
      SpentIgnoresAbsent(h, now, a, n - 1);
      assert h[n - 1].status in Statuses(h);
    }
  }

  /** Time with a status that is none of HEALTHY, DEGRADED and FAULT. */
  function SpentUnknown(h: seq<StatusSample>, now: u64): nat {
    Spent(h, now, Statuses(h) - KNOWN, |h|)
  }

  /** The three reported times and the unreported rest fill the window from the first stamp to now exactly. */
  lemma TimesFillWindow(h: seq<StatusSample>, now: u64)
    requires Chronological(h, now) && h != []
    ensures SpentIn(h, now, R.HEALTHY) + SpentIn(h, now, R.DEGRADED) + SpentIn(h, now, R.FAULT) + SpentUnknown(h, now)
         == now - h[0].timestamp
  {
    var n := |h|;
    DurationsTelescope(h, now, n);
    SpentSplits(h, now, {R.HEALTHY}, {R.DEGRADED}, n);
    SpentSplits(h, now, {R.HEALTHY} + {R.DEGRADED}, {R.FAULT}, n);
    assert {R.HEALTHY} + {R.DEGRADED} + {R.FAULT} == KNOWN;
    SpentIgnoresAbsent(h, now, KNOWN, n);
    SpentSplits(h, now, KNOWN * Statuses(h), Statuses(h) - KNOWN, n);
    assert KNOWN * Statuses(h) + (Statuses(h) - KNOWN) == Statuses(h);
  }

  // ----- percentages

  function Share(spent: nat, totalNs: nat): real
    requires 0 < totalNs
  {
    spent as real * NANOSECOND / (totalNs as real * NANOSECOND) * 100.0
  }

  function PercentIn(h: seq<StatusSample>, now: u64, status: byte): real
    requires h != []
  {
    var totalNs := Sub64(now, h[0].timestamp);
    if totalNs > 0 then Share(SpentIn(h, now, status), totalNs)
    else if h[0].status == status then 100.0 else 0.0
  }

  /** The lowest of the first `n` rates. */
  ghost predicate IsLowest(h: seq<StatusSample>, n: nat, rate: real)
    requires n <= |h|
  {
    (forall i :: 0 <= i < n ==> rate <= h[i].rate) && (exists i :: 0 <= i < n && h[i].rate == rate)
  }

  ghost predicate Describes(m: Metrics, h: seq<StatusSample>, now: u64, window: u64) {
    if h == [] then m == Metrics(0.0, 0.0, 0.0, 0.0, 0.0, 0, 0)
    else DescribesRates(m, h) && DescribesTimes(m, h, now) && DescribesWindow(m, h, now, window)
  }

  ghost predicate DescribesRates(m: Metrics, h: seq<StatusSample>)
    requires h != []
  {
    m.averageRate == TotalRate(h, |h|) / |h| as real && IsLowest(h, |h|, m.minRate)
  }

  predicate DescribesTimes(m: Metrics, h: seq<StatusSample>, now: u64)
    requires h != []
  {
    && m.healthy == PercentIn(h, now, R.HEALTHY)
    && m.degraded == PercentIn(h, now, R.DEGRADED)
    && m.fault == PercentIn(h, now, R.FAULT)
  }

  predicate DescribesWindow(m: Metrics, h: seq<StatusSample>, now: u64, window: u64)
    requires h != []
  {
    && m.transitions == |Changes(h, |h|)| % U32
    && m.windowNs == if Sub64(now, h[0].timestamp) < window then Sub64(now, h[0].timestamp) else window
  }

  lemma ShareIs(spent: nat, totalNs: nat)
    requires 0 < totalNs
    ensures Share(spent, totalNs) * totalNs as real == 100.0 * spent as real
  {
    var t := totalNs as real * NANOSECOND;
    assert spent as real * NANOSECOND / t * t == spent as real * NANOSECOND;
    assert (spent as real * NANOSECOND / t * totalNs as real) * NANOSECOND == spent as real * NANOSECOND;
  }

  lemma PartsTimes(x: real, y: real, z: real, t: real)
    ensures (x + y + z) * t == x * t + y * t + z * t
  {
  }

  lemma RatioIsFull(x: real, part: real, t: real)
    requires 0.0 < t && x * t == 100.0 * part
    ensures x == 100.0 <==> part == t
    ensures 0.0 <= part ==> 0.0 <= x
    ensures part <= t ==> x <= 100.0
  {
    assert t * x == 100.0 * part;
    assert t * (x - 100.0) == 100.0 * part - 100.0 * t;
    assert t * (100.0 - x) == 100.0 * t - 100.0 * part;
    if 0.0 <= part {
      FactorSign(t, x);
    }
    if part <= t {
      FactorSign(t, 100.0 - x);
    }
    if t <= part {
      FactorSign(t, x - 100.0);
    }
  }

  lemma ShareInRange(a: nat, totalNs: nat)
    requires 0 < totalNs && a <= totalNs
    ensures 0.0 <= Share(a, totalNs) <= 100.0
  {
    ShareIs(a, totalNs);
    RatioIsFull(Share(a, totalNs), a as real, totalNs as real);
  }

  lemma SharesAddUp(a: nat, b: nat, c: nat, totalNs: nat)
    requires 0 < totalNs
    ensures Share(a, totalNs) + Share(b, totalNs) + Share(c, totalNs) == 100.0 <==> a + b + c == totalNs
  {
    var x, y, z, t := Share(a, totalNs), Share(b, totalNs), Share(c, totalNs), totalNs as real;
    ShareIs(a, totalNs);
    ShareIs(b, totalNs);
    ShareIs(c, totalNs);
    PartsTimes(x, y, z, t);
    RatioIsFull(x + y + z, (a + b + c) as real, t);
  }

  /**
   * For time stamps that never go back, over a window that is not empty, the three percentages lie in [0, 100] and
   * sum to 100 if and only if no time was spent in an unknown status.
   */
  lemma PercentagesSum(h: seq<StatusSample>, now: u64)
    requires Chronological(h, now) && h != [] && h[0].timestamp < now
    ensures PercentIn(h, now, R.HEALTHY) + PercentIn(h, now, R.DEGRADED) + PercentIn(h, now, R.FAULT) == 100.0
            <==> SpentUnknown(h, now) == 0
    ensures 0.0 <= PercentIn(h, now, R.HEALTHY) <= 100.0
    ensures 0.0 <= PercentIn(h, now, R.DEGRADED) <= 100.0
    ensures 0.0 <= PercentIn(h, now, R.FAULT) <= 100.0
  {
    TimesFillWindow(h, now);
    var a, b, c := SpentIn(h, now, R.HEALTHY), SpentIn(h, now, R.DEGRADED), SpentIn(h, now, R.FAULT);
    var total := Sub64(now, h[0].timestamp);
    SharesAddUp(a, b, c, total);
    ShareInRange(a, total);
    ShareInRange(b, total);
    ShareInRange(c, total);
  }

  // ----- what the figures mean

  /** An entry is kept while it is no older than the window. */
  lemma CutoffMeaning(now: u64, window: u64, stamp: u64)
    ensures Cutoff(now, window) <= stamp <==> now <= stamp + window
  {
  }

  /** The sample that is current at time `t`: the last one no later than `t` among the first `n`. */
  function Current(h: seq<StatusSample>, n: nat, t: int): int
    requires n <= |h|
    ensures -1 <= Current(h, n, t) < n
  {
    if n == 0 then -1 else if h[n - 1].timestamp <= t then n - 1 else Current(h, n - 1, t)
  }

  /** The nanoseconds in [lo, hi) at which the current sample has status `status`. */
  function Instants(h: seq<StatusSample>, n: nat, lo: int, hi: int, status: byte): set<int>
    requires n <= |h|
  {
    set t: int | lo <= t < hi && HasStatus(h, n, t, status)
  }

  predicate HasStatus(h: seq<StatusSample>, n: nat, t: int, status: byte)
    requires n <= |h|
  {
    Current(h, n, t) >= 0 && h[Current(h, n, t)].status == status
  }

  function Range(lo: int, hi: int): (r: set<int>)
    ensures forall t :: (t in r <==> lo <= t < hi)
    decreases hi - lo
  {
    if lo < hi then Range(lo, hi - 1) + {hi - 1} else {}
  }

  lemma {:induction false} RangeSize(lo: int, hi: int)
    requires lo <= hi
    ensures |Range(lo, hi)| == hi - lo
    decreases hi - lo
  {
    if lo < hi {
      RangeSize(lo, hi - 1);
    }
  }

  /** The end of the time covered by the first `n` samples. */
  function CoveredUntil(h: seq<StatusSample>, now: u64, n: nat): u64
    requires n <= |h|
  {
    if n < |h| then h[n].timestamp else now
  }

  /** One more sample is current from its stamp on and changes nothing before. */
  lemma InstantsStep(h: seq<StatusSample>, now: u64, n: nat, status: byte)
    requires Chronological(h, now) && 0 < n <= |h|
    ensures var first, last, end := h[0].timestamp, h[n - 1].timestamp, CoveredUntil(h, now, n);
            && first <= last <= end
            && Instants(h, n, first, end, status)
                 == Instants(h, n - 1, first, last, status) + if h[n - 1].status == status then Range(last, end) else {}
  {
    assert Stamp(h[0]) <= Stamp(h[n - 1]);
    assert Stamp(h[n - 1]) <= CoveredUntil(h, now, n) by {
      if n < |h| {
        assert Stamp(h[n - 1]) <= Stamp(h[n]);
      } else {
        assert n - 1 == |h| - 1;
      }
    }
  }

  lemma DisjointSize<T>(a: set<T>, b: set<T>)
    requires a !! b
    ensures |a + b| == |a| + |b|
  {
  }

  lemma SpentStep(h: seq<StatusSample>, now: u64, n: nat, status: byte)
    requires Chronological(h, now) && 0 < n <= |h| && h[n - 1].timestamp <= CoveredUntil(h, now, n)
    ensures Spent(h, now, {status}, n) == Spent(h, now, {status}, n - 1)
              + if h[n - 1].status == status then CoveredUntil(h, now, n) - h[n - 1].timestamp else 0
  {
  }

  lemma InstantsSizeStep(h: seq<StatusSample>, now: u64, n: nat, status: byte)
    requires Chronological(h, now) && 0 < n <= |h|
    ensures var first, last, end := h[0].timestamp, h[n - 1].timestamp, CoveredUntil(h, now, n);
            && last <= end
            && |Instants(h, n, first, end, status)| == |Instants(h, n - 1, first, last, status)|
                 + if h[n - 1].status == status then end - last else 0
  {
    var first, last, end := h[0].timestamp, h[n - 1].timestamp, CoveredUntil(h, now, n);
    InstantsStep(h, now, n, status);
    if h[n - 1].status == status {
      RangeSize(last, end);
      DisjointSize(Instants(h, n - 1, first, last, status), Range(last, end));
    } else {
      assert Instants(h, n, first, end, status) == Instants(h, n - 1, first, last, status);
    }
  }

  /** The time accounted to a status is the number of nanoseconds at which the current sample has it. */
  lemma {:induction false} SpentCountsInstants(h: seq<StatusSample>, now: u64, n: nat, status: byte)
    requires Chronological(h, now) && h != [] && n <= |h|
    ensures Spent(h, now, {status}, n) == |Instants(h, n, h[0].timestamp, CoveredUntil(h, now, n), status)|
  {
    if n == 0 {
      assert Instants(h, 0, h[0].timestamp, CoveredUntil(h, now, 0), status) == {};
    } else {
      SpentCountsInstants(h, now, n - 1, status);
      InstantsSizeStep(h, now, n, status);
      SpentStep(h, now, n, status);
      assert CoveredUntil(h, now, n - 1) == h[n - 1].timestamp;
    }
  }

  lemma {:induction false} TotalRateAppend(h: seq<StatusSample>, k: seq<StatusSample>, n: nat)
    requires n <= |k|
    ensures TotalRate(h + k, |h| + n) == TotalRate(h, |h|) + TotalRate(k, n)
  {
    if n == 0 {
      TotalRatePrefix(h, k, |h|);
    } else {
      TotalRateAppend(h, k, n - 1);
    }
  }

  lemma {:induction false} TotalRatePrefix(h: seq<StatusSample>, k: seq<StatusSample>, n: nat)
    requires n <= |h|
    ensures TotalRate(h + k, n) == TotalRate(h, n)
  {
    if n > 0 {
      TotalRatePrefix(h, k, n - 1);
    }
  }

  /** The sum of rates: one sample contributes its own, two histories together contribute what they do apart. */
  lemma TotalRateAdds(h: seq<StatusSample>, k: seq<StatusSample>, s: StatusSample)
    ensures TotalRate([s], 1) == s.rate
    ensures TotalRate(h + k, |h + k|) == TotalRate(h, |h|) + TotalRate(k, |k|)
  {
    assert TotalRate([s], 1) == TotalRate([s], 0) + s.rate;
    TotalRateAppend(h, k, |k|);
  }

  predicate IsShare(percent: real, part: nat, total: int) {
    percent * total as real == 100.0 * part as real
  }

  /** `percent` of the time from the first stamp to now was spent in `status`. */
  predicate IsShareOf(percent: real, h: seq<StatusSample>, now: u64, status: byte)
    requires h != []
  {
    IsShare(percent, |Instants(h, |h|, h[0].timestamp, now, status)|, now - h[0].timestamp)
  }

  lemma ShareIsShare(part: nat, total: nat)
    requires 0 < total
    ensures IsShare(Share(part, total), part, total)
  {
    ShareIs(part, total);
  }

  lemma PercentIsShare(h: seq<StatusSample>, now: u64, status: byte)
    requires Chronological(h, now) && h != [] && h[0].timestamp < now
    ensures IsShareOf(PercentIn(h, now, status), h, now, status)
  {
    SpentCountsInstants(h, now, |h|, status);
    ShareIsShare(SpentIn(h, now, status), now - h[0].timestamp);
    assert PercentIn(h, now, status) == Share(SpentIn(h, now, status), now - h[0].timestamp);
  }

  /** Each percentage is the share of its own status, over a window that is not empty. */
  lemma PercentagesMeaning(m: Metrics, h: seq<StatusSample>, now: u64, window: u64)
    requires Describes(m, h, now, window) && Chronological(h, now) && h != [] && h[0].timestamp < now
    ensures IsShareOf(m.healthy, h, now, 1) && IsShareOf(m.degraded, h, now, 2) && IsShareOf(m.fault, h, now, 3)
  {
    ReportedPercentages(m, h, now);
    PercentIsShare(h, now, 1);
    PercentIsShare(h, now, 2);
    PercentIsShare(h, now, 3);
  }

  lemma ReportedPercentages(m: Metrics, h: seq<StatusSample>, now: u64)
    requires h != [] && DescribesTimes(m, h, now)
    ensures m.healthy == PercentIn(h, now, 1) && m.degraded == PercentIn(h, now, 2) && m.fault == PercentIn(h, now, 3)
  {
  }

  /** The other figures: mean and lowest rate, changes of status modulo 2^32, and the window actually covered. */
  lemma FiguresMeaning(m: Metrics, h: seq<StatusSample>, now: u64, window: u64)
    requires h != [] && Chronological(h, now) && DescribesRates(m, h) && DescribesWindow(m, h, now, window)
    ensures m.averageRate == TotalRate(h, |h|) / |h| as real
    ensures (forall i :: 0 <= i < |h| ==> m.minRate <= h[i].rate) && exists i :: 0 <= i < |h| && h[i].rate == m.minRate
    ensures m.transitions == |set i: nat | i < |h| && Differs(h, i)| % 0x1_0000_0000
    ensures m.windowNs == if now - h[0].timestamp <= window then now - h[0].timestamp else window
  {
    assert Stamp(h[0]) <= Stamp(h[|h| - 1]);
  }

  /** Over an empty window the status of the first sample counts in full; without samples every figure is zero. */
  lemma MetricsOfAnInstant(m: Metrics, h: seq<StatusSample>, now: u64, window: u64)
    requires Describes(m, h, now, window) && (h == [] || h[0].timestamp == now)
    ensures h == [] ==> m == Metrics(0.0, 0.0, 0.0, 0.0, 0.0, 0, 0)
    ensures h != [] ==>
              && m.healthy == (if h[0].status == 1 then 100.0 else 0.0)
              && m.degraded == (if h[0].status == 2 then 100.0 else 0.0)
              && m.fault == (if h[0].status == 3 then 100.0 else 0.0)
              && m.windowNs == 0
  {
  }

  // ----- the class

  class SensorTracker {
    var msgTimes: seq<u64>
    var history: seq<StatusSample>

    constructor ()
      ensures msgTimes == [] && history == []
    {
      msgTimes, history := [], [];
    }

    method RecordMessage(now: u64)
      modifies this`msgTimes
      ensures msgTimes == old(msgTimes) + [now]
    {
      msgTimes := msgTimes + [now];
    }

    method RecordStatus(now: u64, status: byte, rate: real)
      modifies this`history
      ensures history == old(history) + [StatusSample(now, status, rate)]
    {
      history := history + [StatusSample(now, status, rate)];
    }

    method PruneWindow(now: u64, window: u64)
      modifies this`msgTimes
      ensures msgTimes == DropBefore(old(msgTimes), Itself, Cutoff(now, window))
      ensures Ordered(old(msgTimes), Itself) ==> msgTimes == Recent(old(msgTimes), Itself, Cutoff(now, window))
    {
      var cutoff := if now >= window then now - window else 0;
      if Ordered(msgTimes, Itself) {
        PruneKeepsWindow(msgTimes, Itself, cutoff);
      }
      while msgTimes != [] && msgTimes[0] < cutoff
        invariant DropBefore(msgTimes, Itself, cutoff) == DropBefore(old(msgTimes), Itself, cutoff)
        decreases |msgTimes|
      {
        msgTimes := msgTimes[1..];
      }
    }

    method PruneHistory(now: u64, window: u64)
      modifies this`history
      ensures history == DropBefore(old(history), Stamp, Cutoff(now, window))
      ensures Ordered(old(history), Stamp) ==> history == Recent(old(history), Stamp, Cutoff(now, window))
    {
      var cutoff := if now >= window then now - window else 0;
      if Ordered(history, Stamp) {
        PruneKeepsWindow(history, Stamp, cutoff);
      }
      while history != [] && history[0].timestamp < cutoff
        invariant DropBefore(history, Stamp, cutoff) == DropBefore(old(history), Stamp, cutoff)
        decreases |history|
      {
        history := history[1..];
      }
    }

    method BuildMetrics(now: u64, window: u64) returns (m: Metrics)
      ensures Describes(m, history, now, window)
    {
      if history == [] {
        return Metrics(0.0, 0.0, 0.0, 0.0, 0.0, 0, 0);
      }
      var averageRate, minRate := RateStatistics();
      var healthyNs, degradedNs, faultNs, transitions := StatusTimes(now);
      var totalNs := Sub64(now, history[0].timestamp);
      var windowNs := if totalNs < window then totalNs else window;
      if totalNs > 0 {
        m := Metrics(averageRate, minRate,
          Share(healthyNs, totalNs), Share(degradedNs, totalNs), Share(faultNs, totalNs), transitions, windowNs);
      } else {
        var status := history[0].status;
        m := Metrics(averageRate, minRate,
          if status == R.HEALTHY then 100.0 else 0.0,
          if status == R.DEGRADED then 100.0 else 0.0,
          if status == R.FAULT then 100.0 else 0.0,
          transitions, windowNs);
      }
    }

    method RateStatistics() returns (average: real, lowest: real)
      requires history != []
      ensures average == TotalRate(history, |history|) / |history| as real
      ensures IsLowest(history, |history|, lowest)
    {
      var total := 0.0;
      lowest := history[0].rate;
      for i := 0 to |history|
        invariant total == TotalRate(history, i)
        invariant if i == 0 then lowest == history[0].rate else IsLowest(history, i, lowest)
      {
        total := total + history[i].rate;
        if history[i].rate < lowest {
          lowest := history[i].rate;
        }
      }
      average := total / |history| as real;
    }

    /** Time per status in nanoseconds, and the number of status changes. */
    method StatusTimes(now: u64) returns (healthyNs: nat, degradedNs: nat, faultNs: nat, transitions: nat)
      ensures healthyNs == SpentIn(history, now, R.HEALTHY)
      ensures degradedNs == SpentIn(history, now, R.DEGRADED)
      ensures faultNs == SpentIn(history, now, R.FAULT)
      ensures transitions == |Changes(history, |history|)| % U32
    {
      healthyNs, degradedNs, faultNs, transitions := 0, 0, 0, 0;
      for i := 0 to |history|
        invariant healthyNs == Spent(history, now, {R.HEALTHY}, i)
        invariant degradedNs == Spent(history, now, {R.DEGRADED}, i)
        invariant faultNs == Spent(history, now, {R.FAULT}, i)
        invariant transitions == |Changes(history, i)| % U32
      {
        var next := if i + 1 < |history| then history[i + 1].timestamp else now;
        var durationNs := Sub64(next, history[i].timestamp);
        var status := history[i].status;
        if status == R.HEALTHY {
          healthyNs := healthyNs + durationNs;
        } else if status == R.DEGRADED {
          degradedNs := degradedNs + durationNs;
        } else if status == R.FAULT {
          faultNs := faultNs + durationNs;
        }
        ChangesStep(history, i);
        if i > 0 && status != history[i - 1].status {
          transitions := (transitions + 1) % U32;
        }
      }
    }
  }
}
