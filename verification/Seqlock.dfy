/**
 * The sequence lock of the IMU and odometry buffers, as interleaved steps of one writer and any number of readers.
 *
 * A sample is a sequence of fields. Storing and copying a sample takes one step per field, in any order, so a reader
 * can see fields of different writes. The counter is a 32-bit one and wraps.
 */
module Seqlock {

  const COUNTER_RANGE := 0x1_0000_0000
  const WRAP_AFTER := 0x8000_0000  // completed writes that bring the counter back to where it was

  datatype Writer<T> =
    | Resting
    | Storing(sample: seq<T>, stored: set<nat>)

  datatype Phase<T> =
    | Outside
    | Loading                                                // about to load the counter
    | Copying(before: nat, copy: map<nat, T>, since: nat)    // `since`: writes completed at that load

  /** A finished `read`: the sample, the write it comes from, and the last write completed when it was called. */
  datatype Result<T> = Result(sample: seq<T>, index: nat, floor: nat)

  datatype Reader<T> = Reader(phase: Phase<T>, floor: nat, results: seq<Result<T>>)

  /** `history` holds the initial sample and then every completed write. */
  datatype State<T> = State(
    counter: nat,
    memory: seq<T>,
    writer: Writer<T>,
    history: seq<seq<T>>,
    readers: seq<Reader<T>>)
  {
    /** Number of completed writes. */
    function Completed(): int {
      |history| - 1
    }

    function Fields(): nat {
      |memory|
    }
  }

  datatype Action<T> =
    | BeginWrite(sample: seq<T>)
    | StoreField(i: nat)
    | EndWrite
    | Call(r: nat)
    | LoadBefore(r: nat)
    | CopyField(r: nat, i: nat)
    | LoadAfter(r: nat)

  function Initial<T>(sample: seq<T>, readerCount: nat): State<T> {
    State(0, sample, Resting, [sample], seq(readerCount, _ => Reader(Outside, 0, [])))
  }

  function Bump(counter: nat): nat {
    (counter + 1) % COUNTER_RANGE
  }

  predicate Complete(fields: set<nat>, n: nat) {
    forall i: nat :: i < n ==> i in fields
  }

  predicate Enabled<T>(s: State<T>, a: Action<T>) {
    match a
    case BeginWrite(sample) => s.writer.Resting? && |sample| == s.Fields()
    case StoreField(i) => s.writer.Storing? && i < s.Fields() && i < |s.writer.sample| && i !in s.writer.stored
    case EndWrite => s.writer.Storing? && Complete(s.writer.stored, s.Fields())
    case Call(r) => r < |s.readers| && s.readers[r].phase.Outside?
    case LoadBefore(r) => r < |s.readers| && s.readers[r].phase.Loading?
    case CopyField(r, i) =>
      r < |s.readers| && s.readers[r].phase.Copying? && i < s.Fields() && i !in s.readers[r].phase.copy
    case LoadAfter(r) =>
      r < |s.readers| && s.readers[r].phase.Copying? && Complete(s.readers[r].phase.copy.Keys, s.Fields())
  }

  /** The test at the bottom of the retry loop. */
  predicate Accepted<T>(s: State<T>, rd: Reader<T>)
    requires rd.phase.Copying?
  {
    rd.phase.before == s.counter && rd.phase.before % 2 == 0
  }

  function Assemble<T>(copy: map<nat, T>, n: nat): seq<T>
    requires Complete(copy.Keys, n)
  {
    seq(n, i requires 0 <= i < n => copy[i])
  }

  /** A reader's step; `rd` is the reader before it. */
  function ReaderStep<T>(s: State<T>, rd: Reader<T>, a: Action<T>): Reader<T>
    requires Enabled(s, a) && !a.BeginWrite? && !a.StoreField? && !a.EndWrite? && rd == s.readers[a.r]
    requires 0 < |s.history|
  {
    match a
    case Call(_) => rd.(phase := Loading, floor := s.Completed())
    case LoadBefore(_) => rd.(phase := Copying(s.counter, map[], s.Completed()))
    case CopyField(_, i) => rd.(phase := rd.phase.(copy := rd.phase.copy[i := s.memory[i]]))
    case LoadAfter(_) =>
      if Accepted(s, rd) then
        rd.(phase := Outside,
            results := rd.results + [Result(Assemble(rd.phase.copy, s.Fields()), rd.phase.since, rd.floor)])
      else
        rd.(phase := Loading)
  }

  function Step<T>(s: State<T>, a: Action<T>): State<T>
    requires Enabled(s, a) && 0 < |s.history|
  {
    match a
    case BeginWrite(sample) => s.(counter := Bump(s.counter), writer := Storing(sample, {}))
    case StoreField(i) =>
      s.(memory := s.memory[i := s.writer.sample[i]], writer := s.writer.(stored := s.writer.stored + {i}))
    case EndWrite => s.(counter := Bump(s.counter), writer := Resting, history := s.history + [s.writer.sample])
    case _ => s.(readers := s.readers[a.r := ReaderStep(s, s.readers[a.r], a)])
  }

  /** Completed writes that fall into a read attempt. */
  function Spanned<T>(s: State<T>, rd: Reader<T>): int
    requires rd.phase.Copying?
  {
    s.Completed() - rd.phase.since
  }

  /** No read attempt spans a positive multiple of 2^31 writes, which would bring the counter back to where it was. */
  predicate NoWrap<T>(s: State<T>, a: Action<T>)
    requires Enabled(s, a)
  {
    a.LoadAfter? ==>
      var n := Spanned(s, s.readers[a.r]);
      n == 0 || n % WRAP_AFTER != 0
  }

  // ----- the invariant

  ghost predicate WriterOk<T>(s: State<T>) {
    && 0 < |s.history|
    && (forall h :: 0 <= h < |s.history| ==> |s.history[h]| == s.Fields())
    && match s.writer
       case Resting =>
         s.counter == (2 * s.Completed()) % COUNTER_RANGE && s.memory == s.history[s.Completed()]
       case Storing(sample, stored) =>
         && s.counter == (2 * s.Completed() + 1) % COUNTER_RANGE
         && |sample| == s.Fields()
         && forall i :: i in stored && i < s.Fields() ==> s.memory[i] == sample[i]
  }

  /** The write that began an attempt's counter value was the last completed one, and nothing happened since. */
  predicate Undisturbed<T>(s: State<T>, rd: Reader<T>)
    requires rd.phase.Copying?
  {
    rd.phase.before % 2 == 0 && rd.phase.since == s.Completed() && s.writer.Resting?
  }

  ghost predicate AttemptOk<T>(s: State<T>, rd: Reader<T>)
    requires 0 < |s.history|
  {
    rd.phase.Copying? ==>
      var p := rd.phase;
      && rd.floor <= p.since <= s.Completed()
      && (p.before == (2 * p.since) % COUNTER_RANGE || p.before == (2 * p.since + 1) % COUNTER_RANGE)
      && (Undisturbed(s, rd) ==>
            forall i :: i in p.copy && i < |s.history[p.since]| ==> p.copy[i] == s.history[p.since][i])
  }

  /** Result `k` is one complete write, at least as recent as any completed before the call and as result `k - 1`. */
  ghost predicate ResultOk<T>(s: State<T>, results: seq<Result<T>>, k: nat)
    requires k < |results|
  {
    && results[k].index < |s.history|
    && results[k].sample == s.history[results[k].index]
    && results[k].floor <= results[k].index
    && (k > 0 ==> results[k - 1].index <= results[k].floor)
  }

  ghost predicate ReaderOk<T>(s: State<T>, rd: Reader<T>)
    requires 0 < |s.history|
  {
    && AttemptOk(s, rd)
    && (forall k :: 0 <= k < |rd.results| ==> ResultOk(s, rd.results, k))
    && rd.floor <= s.Completed()
    && (!rd.phase.Outside? && rd.results != [] ==> rd.results[|rd.results| - 1].index <= rd.floor)
  }

  ghost predicate Inv<T>(s: State<T>) {
    && WriterOk(s)
    && forall r :: 0 <= r < |s.readers| ==> ReaderOk(s, s.readers[r])
  }

  // ----- the retry test is exact

  lemma CounterPeriod(since: nat, now: nat)
    requires since <= now
    ensures (2 * since) % COUNTER_RANGE == (2 * now) % COUNTER_RANGE <==> (now - since) % WRAP_AFTER == 0
  {
  }

  lemma CounterParity(n: nat)
    ensures (2 * n) % COUNTER_RANGE % 2 == 0 && (2 * n + 1) % COUNTER_RANGE % 2 == 1
  {
  }

  lemma BumpWraps(n: nat)
    ensures Bump(n % COUNTER_RANGE) == (n + 1) % COUNTER_RANGE
  {
  }

  /** An attempt is accepted exactly when it began and ended outside a write, a multiple of 2^31 writes apart. */
  lemma AcceptedExactly<T>(s: State<T>, rd: Reader<T>)
    requires WriterOk(s) && AttemptOk(s, rd) && rd.phase.Copying?
    ensures Accepted(s, rd) <==>
              && rd.phase.before % 2 == 0
              && s.writer.Resting?
              && Spanned(s, rd) % WRAP_AFTER == 0
  {
    CounterPeriod(rd.phase.since, s.Completed());
    CounterParity(rd.phase.since);
    CounterParity(s.Completed());
  }

  /** Unless it spans a positive multiple of 2^31 writes, an attempt is accepted exactly when no write overlapped it. */
  lemma AcceptedIffUndisturbed<T>(s: State<T>, rd: Reader<T>)
    requires WriterOk(s) && AttemptOk(s, rd) && rd.phase.Copying?
    requires Spanned(s, rd) == 0 || Spanned(s, rd) % WRAP_AFTER != 0
    ensures Accepted(s, rd) <==> Undisturbed(s, rd)
  {
    AcceptedExactly(s, rd);
  }

  // ----- every step keeps the invariant

  lemma WriterKeeps<T>(s: State<T>, a: Action<T>)
    requires Inv(s) && Enabled(s, a)
    ensures WriterOk(Step(s, a))
  {
    var s' := Step(s, a);
    match a
    case EndWrite =>
      BumpWraps(2 * s.Completed() + 1);
      assert s.memory == s.writer.sample;
    case BeginWrite(_) =>
      BumpWraps(2 * s.Completed());
    case _ =>
  }

  /** A step of the writer, or of another reader, leaves a reader as sound as it was. */
  lemma OthersKeep<T>(s: State<T>, s': State<T>, rd: Reader<T>)
    requires 0 < |s.history| && s.history <= s'.history && ReaderOk(s, rd)
    requires s'.history == s.history && s'.writer.Resting? ==> s.writer.Resting?
    ensures ReaderOk(s', rd)
  {
    forall k | 0 <= k < |rd.results| ensures ResultOk(s', rd.results, k) {
      assert ResultOk(s, rd.results, k);
    }
  }

  lemma AssembledIs<T>(s: State<T>, rd: Reader<T>)
    requires WriterOk(s) && AttemptOk(s, rd) && rd.phase.Copying? && Undisturbed(s, rd)
    requires Complete(rd.phase.copy.Keys, s.Fields())
    ensures Assemble(rd.phase.copy, s.Fields()) == s.history[rd.phase.since]
  {
  }

  lemma OwnStepKeeps<T>(s: State<T>, a: Action<T>)
    requires Inv(s) && Enabled(s, a) && NoWrap(s, a)
    requires a.Call? || a.LoadBefore? || a.CopyField? || a.LoadAfter?
    ensures ReaderOk(s, ReaderStep(s, s.readers[a.r], a))
  {
    var rd := s.readers[a.r];
    var rd' := ReaderStep(s, rd, a);
    assert ReaderOk(s, rd);
    if a.LoadAfter? && Accepted(s, rd) {
      AcceptedIffUndisturbed(s, rd);
      AssembledIs(s, rd);
    }
    forall k | 0 <= k < |rd'.results| ensures ResultOk(s, rd'.results, k) {
      if k < |rd.results| {
        assert ResultOk(s, rd.results, k);
      }
    }
    if rd.results != [] {
      assert ResultOk(s, rd.results, |rd.results| - 1);
    }
  }

  lemma StepKeeps<T>(s: State<T>, a: Action<T>)
    requires Inv(s) && Enabled(s, a) && NoWrap(s, a)
    ensures Inv(Step(s, a))
  {
    var s' := Step(s, a);
    WriterKeeps(s, a);
    forall r | 0 <= r < |s'.readers| ensures ReaderOk(s', s'.readers[r]) {
      assert ReaderOk(s, s.readers[r]);
      if s'.readers[r] != s.readers[r] {
        OwnStepKeeps(s, a);
      }
      OthersKeep(s, s', s'.readers[r]);
    }
  }

  // ----- whole runs

  /** `trace` is a run of the protocol from `s`. */
  ghost predicate IsRun<T>(s: State<T>, trace: seq<Action<T>>)
    requires 0 < |s.history|
    decreases |trace|
  {
    trace == [] || (Enabled(s, trace[0]) && IsRun(Step(s, trace[0]), trace[1..]))
  }

  function Run<T>(s: State<T>, trace: seq<Action<T>>): (end: State<T>)
    requires 0 < |s.history| && IsRun(s, trace)
    ensures s.history <= end.history && |end.readers| == |s.readers|
    decreases |trace|
  {
    if trace == [] then s else Run(Step(s, trace[0]), trace[1..])
  }

  /** No attempt of this run spans a positive multiple of 2^31 writes. */
  ghost predicate NeverWraps<T>(s: State<T>, trace: seq<Action<T>>)
    requires 0 < |s.history| && IsRun(s, trace)
    decreases |trace|
  {
    trace == [] || (NoWrap(s, trace[0]) && NeverWraps(Step(s, trace[0]), trace[1..]))
  }

  lemma {:induction false} RunKeeps<T>(s: State<T>, trace: seq<Action<T>>)
    requires Inv(s) && IsRun(s, trace) && NeverWraps(s, trace)
    ensures Inv(Run(s, trace))
    decreases |trace|
  {
    if trace != [] {
      StepKeeps(s, trace[0]);
      RunKeeps(Step(s, trace[0]), trace[1..]);
    }
  }

  lemma {:induction false} IndicesRise<T>(s: State<T>, results: seq<Result<T>>, j: nat, k: nat)
    requires j <= k < |results| && forall i :: 0 <= i < |results| ==> ResultOk(s, results, i)
    ensures results[j].index <= results[k].index
  {
    if j < k {
      IndicesRise(s, results, j, k - 1);
      assert ResultOk(s, results, k);
    }
  }

  /**
   * In every run that never wraps, whatever the interleaving, every sample a `read` returned is one complete write
   * or the initial sample, no older than the last write completed before that call, and no reader ever goes back
   * in time.
   */
  lemma ReadsAreAtomic<T>(initial: seq<T>, readerCount: nat, trace: seq<Action<T>>, r: nat, j: nat, k: nat)
    requires IsRun(Initial(initial, readerCount), trace)
    requires NeverWraps(Initial(initial, readerCount), trace)
    requires var end := Run(Initial(initial, readerCount), trace);
             r < |end.readers| && j <= k < |end.readers[r].results|
    ensures var end := Run(Initial(initial, readerCount), trace);
            var results := end.readers[r].results;
            && results[k].index < |end.history|
            && results[k].sample == end.history[results[k].index]
            && results[k].floor <= results[k].index
            && results[j].index <= results[k].index
  {
    var s := Initial(initial, readerCount);
    RunKeeps(s, trace);
    var end := Run(s, trace);
    assert ReaderOk(end, end.readers[r]);
    assert ResultOk(end, end.readers[r].results, k);
    IndicesRise(end, end.readers[r].results, j, k);
  }

  // ----- an attempt that outlasts the counter

  /** One write of a two-field sample. */
  function OneWrite<T>(b: T): seq<Action<T>> {
    [BeginWrite([b, b]), StoreField(0), StoreField(1), EndWrite]
  }

  /** `n` writes of the same two-field sample. */
  function Writes<T>(b: T, n: nat): seq<Action<T>>
    decreases n
  {
    if n == 0 then [] else OneWrite(b) + Writes(b, n - 1)
  }

  /** A reader copies one field before and one field after `n` writes. */
  function SlowRead<T>(b: T, n: nat): seq<Action<T>> {
    [Call(0), LoadBefore(0), CopyField(0, 0)] + (Writes(b, n) + [CopyField(0, 1), LoadAfter(0)])
  }

  lemma {:induction false} RunConcat<T>(s: State<T>, t: seq<Action<T>>, u: seq<Action<T>>)
    requires 0 < |s.history| && IsRun(s, t) && IsRun(Run(s, t), u)
    ensures IsRun(s, t + u) && Run(s, t + u) == Run(Run(s, t), u)
    decreases |t|
  {
    if t == [] {
      assert t + u == u;
    } else {
      assert (t + u)[0] == t[0] && (t + u)[1..] == t[1..] + u;
      RunConcat(Step(s, t[0]), t[1..], u);
    }
  }

  /** Between writes, with two fields, after `c` completed writes. */
  predicate Between<T>(s: State<T>, c: nat) {
    s.writer.Resting? && s.Fields() == 2 && |s.history| == c + 1 && s.counter == (2 * c) % COUNTER_RANGE
  }

  lemma RunOne<T>(s: State<T>, a: Action<T>)
    requires 0 < |s.history| && Enabled(s, a)
    ensures IsRun(s, [a]) && Run(s, [a]) == Step(s, a)
  {
    assert IsRun(Step(s, a), []);
  }

  lemma RunTwo<T>(s: State<T>, a: Action<T>, b: Action<T>)
    requires 0 < |s.history| && Enabled(s, a) && Enabled(Step(s, a), b)
    ensures IsRun(s, [a, b]) && Run(s, [a, b]) == Step(Step(s, a), b)
  {
    RunOne(s, a);
    RunOne(Step(s, a), b);
    RunConcat(s, [a], [b]);
    assert [a] + [b] == [a, b];
  }

  lemma OneWriteRuns<T>(s: State<T>, b: T, c: nat)
    requires Between(s, c)
    ensures IsRun(s, OneWrite(b))
    ensures Run(s, OneWrite(b))
         == State((2 * (c + 1)) % COUNTER_RANGE, [b, b], Resting, s.history + [[b, b]], s.readers)
  {
    var begun := Step(s, BeginWrite([b, b]));
    var half := Step(begun, StoreField(0));
    var full := Step(half, StoreField(1));
    RunTwo(s, BeginWrite([b, b]), StoreField(0));
    assert full.memory == [b, b];
    RunTwo(half, StoreField(1), EndWrite);
    RunConcat(s, [BeginWrite([b, b]), StoreField(0)], [StoreField(1), EndWrite]);
    BumpWraps(2 * c);
    BumpWraps(2 * c + 1);
    assert [BeginWrite([b, b]), StoreField(0)] + [StoreField(1), EndWrite] == OneWrite(b);
  }

  lemma {:induction false} ManyWrites<T>(s: State<T>, b: T, c: nat, n: nat)
    requires Between(s, c)
    ensures IsRun(s, Writes(b, n))
    ensures var end := Run(s, Writes(b, n));
            && Between(end, c + n) && end.readers == s.readers
            && end.memory == (if n == 0 then s.memory else [b, b])
            && (forall h :: h in end.history ==> h in s.history || h == [b, b])
    decreases n
  {
    if n > 0 {
      OneWriteRuns(s, b, c);
      ManyWrites(Run(s, OneWrite(b)), b, c + 1, n - 1);
      RunConcat(s, OneWrite(b), Writes(b, n - 1));
    }
  }

  /**
   * Without the proviso reads are not atomic: when a multiple of 2^31 writes of another sample falls between the two
   * fields a reader copies, the retry test passes and `read` returns a sample nobody ever wrote.
   */
  lemma TornRead<T>(a: T, b: T, n: nat)
    requires a != b && 0 < n && n % WRAP_AFTER == 0
    ensures var s := Initial([a, a], 1);
            && IsRun(s, SlowRead(b, n))
            && Run(s, SlowRead(b, n)).readers[0].results == [Result([a, b], 0, 0)]
            && [a, b] !in Run(s, SlowRead(b, n)).history
  {
    var s := Initial([a, a], 1);
    var head, tail := [Call(0), LoadBefore(0), CopyField(0, 0)], [CopyField(0, 1), LoadAfter(0)];
    var began := HalfCopied(a);
    ManyWrites(began, b, 0, n);
    var late := Run(began, Writes(b, n));
    CounterPeriod(0, n);
    FinishTorn(late, a, b);
    RunConcat(began, Writes(b, n), tail);
    RunConcat(s, head, Writes(b, n) + tail);
  }

  lemma HalfCopied<T>(a: T) returns (began: State<T>)
    ensures var s := Initial([a, a], 1);
            var head := [Call(0), LoadBefore(0), CopyField(0, 0)];
            IsRun(s, head) && began == Run(s, head)
    ensures began == State(0, [a, a], Resting, [[a, a]], [Reader(Copying(0, map[0 := a], 0), 0, [])])
  {
    var s := Initial([a, a], 1);
    RunTwo(s, Call(0), LoadBefore(0));
    began := Step(Step(Step(s, Call(0)), LoadBefore(0)), CopyField(0, 0));
    RunOne(Step(Step(s, Call(0)), LoadBefore(0)), CopyField(0, 0));
    var first: seq<Action<T>>, second: seq<Action<T>> := [Call(0), LoadBefore(0)], [CopyField(0, 0)];
    RunConcat(s, first, second);
    assert first + second == [Call(0), LoadBefore(0), CopyField(0, 0)];
  }

  lemma FinishTorn<T>(s: State<T>, a: T, b: T)
    requires 0 < |s.history| && s.memory == [b, b] && s.counter == 0
    requires s.readers == [Reader(Copying(0, map[0 := a], 0), 0, [])]
    ensures var tail := [CopyField(0, 1), LoadAfter(0)];
            && IsRun(s, tail)
            && Run(s, tail).readers[0].results == [Result([a, b], 0, 0)]
            && Run(s, tail).history == s.history
  {
    var copied := Step(s, CopyField(0, 1));
    assert copied.readers[0].phase.copy == map[0 := a, 1 := b];
    assert Assemble(copied.readers[0].phase.copy, 2) == [a, b];
    RunTwo(s, CopyField(0, 1), LoadAfter(0));
  }
}
