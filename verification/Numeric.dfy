/** Real and machine-integer arithmetic shared by every component. */
module Numeric {

  function Max(a: real, b: real): real {
    if a < b then b else a
  }

  function Min(a: real, b: real): real {
    if b < a then b else a
  }

  function Abs(a: real): real {
    if a < 0.0 then -a else a
  }

  function Clamp(value: real, lo: real, hi: real): real {
    if value < lo then lo else if hi < value then hi else value
  }

  /** `c` is the value in [lo, hi] nearest to `value`. */
  predicate Nearest(value: real, lo: real, hi: real, c: real) {
    && lo <= c <= hi
    && (lo <= value <= hi ==> c == value)
    && (value < lo ==> c == lo)
    && (hi < value ==> c == hi)
  }

  lemma NearestIsClosest(value: real, lo: real, hi: real, c: real, y: real)
    requires Nearest(value, lo, hi, c) && lo <= y <= hi
    ensures Abs(c - value) <= Abs(y - value)
  {
  }

  /** The least integer at or above `r`, for non-negative `r`. */
  function Ceil(r: real): (n: nat)
    requires 0.0 <= r
    ensures r <= n as real < r + 1.0
  {
    var down := r.Floor;
    if down as real == r then down else down + 1
  }

  /** How many steps of length `step` it takes to use up `total`. */
  function StepsToCover(total: real, step: real): nat
    requires 0.0 <= total && 0.0 < step
  {
    assert 0.0 <= total / step by { QuotientSign(total, step); }
    Ceil(total / step)
  }

  lemma QuotientSign(total: real, step: real)
    requires 0.0 <= total && 0.0 < step
    ensures 0.0 <= total / step
  {
  }

  lemma QuotientMonotone(a: real, b: real, step: real)
    requires a <= b && 0.0 < step
    ensures a / step <= b / step
  {
    QuotientSign(b - a, step);
    assert b / step == (b - a) / step + a / step;
  }

  lemma ProductSign(a: real, b: real)
    requires 0.0 <= a && 0.0 <= b
    ensures 0.0 <= a * b
  {
  }

  lemma ProductNegated(a: real, b: real, c: real)
    requires a == -b
    ensures a * c == -(b * c)
  {
  }

  lemma SquareSign(a: real)
    ensures 0.0 <= a * a
  {
  }

  lemma SquareZero(a: real)
    ensures a * a <= 0.0 ==> a == 0.0
  {
    if a != 0.0 {
      assert (a * a) / a == a;
    }
  }

  lemma FactorSign(a: real, b: real)
    requires 0.0 < a && 0.0 <= a * b
    ensures 0.0 <= b
  {
    QuotientSign(a * b, a);
    assert (a * b) / a == b;
  }

  lemma QuotientOrder(total: real, step: real, k: real)
    requires 0.0 < step
    ensures k * step < total <==> k < total / step
  {
    var q := total / step;
    assert q * step == total;
    if k < q {
      assert (q - k) * step > 0.0;
    } else {
      assert (k - q) * step >= 0.0;
    }
  }

  /** What `n` steps leave of `total`. */
  function Remaining(total: real, step: real, n: nat): real {
    Max(0.0, total - n as real * step)
  }

  lemma RemainingNext(total: real, step: real, n: nat)
    requires 0.0 <= step
    ensures Remaining(total, step, n + 1) == Max(0.0, Remaining(total, step, n) - step)
  {
    assert (n + 1) as real * step == n as real * step + step;
  }

  /** `n` steps leave something over exactly when `n` is below the step count. */
  lemma StepsLeft(total: real, step: real, n: nat)
    requires 0.0 <= total && 0.0 < step
    ensures 0.0 <= Remaining(total, step, n) <= total
    ensures 0.0 < Remaining(total, step, n) <==> n < StepsToCover(total, step)
  {
    ProductSign(n as real, step);
    QuotientSign(total, step);
    QuotientOrder(total, step, n as real);
  }

  const U64 := 0x1_0000_0000_0000_0000

  /** `std::uint64_t` */
  type u64 = x: int | 0 <= x < U64

  /** `std::uint8_t` */
  type byte = x: int | 0 <= x < 256

  /** Unsigned subtraction: wraps when `b` is ahead of `a`. */
  function Sub64(a: u64, b: u64): u64 {
    (a - b) % U64
  }

  datatype Option<+T> = None | Some(value: T)
}
