/** Integer multiplication and division, one step at a time. */
module Multiples {

  lemma MulMonotone(a: int, b: int, k: int)
    requires a <= b && k >= 0
    ensures a * k <= b * k
  {
  }

  lemma MulOrder(a: int, b: int, k: int)
    requires a * k < b * k && k > 0
    ensures a < b
  {
  }

  lemma MulDistributes(a: int, b: int, k: int)
    ensures (a + b) * k == a * k + b * k
  {
  }

  lemma ExactQuotient(x: int, k: int)
    requires k > 0 && x % k == 0
    ensures x == x / k * k
  {
  }

  lemma SmallMultiple(d: int, k: int, r: int)
    requires k > 0 && d * k == r && 0 <= r < k
    ensures d == 0 && r == 0
  {
    MulOrder(d, 1, k);
    MulOrder(-1, d, k);
  }

  lemma MultipleDivides(p: int, k: int)
    requires k > 0
    ensures p * k % k == 0 && p * k / k == p
  {
    var x := p * k;
    var q, r := x / k, x % k;
    MulDistributes(p - q, q, k);
    SmallMultiple(p - q, k, r);
  }

  /** Different multiples are at least one step apart. */
  lemma AlignedGap(a: int, b: int, k: int)
    requires k > 0 && a % k == 0 && b % k == 0 && a < b
    ensures a + k <= b
  {
    var p, q := a / k, b / k;
    ExactQuotient(a, k);
    ExactQuotient(b, k);
    MulOrder(p, q, k);
    MulMonotone(p + 1, q, k);
    MulDistributes(p, 1, k);
  }

  lemma ShiftAligned(a: int, n: int, k: int)
    requires k > 0 && a % k == 0
    ensures (a + n * k) % k == 0 && (a + n * k) / k == a / k + n
  {
    ExactQuotient(a, k);
    MulDistributes(a / k, n, k);
    MultipleDivides(a / k + n, k);
  }

  /** Shifting by whole steps shifts the quotient. */
  lemma ShiftQuotient(x: int, n: int, k: int)
    requires k > 0
    ensures (x + n * k) / k == x / k + n && (x + n * k) % k == x % k
  {
    var q, r := x / k, x % k;
    var y := x + n * k;
    MulDistributes(q, n, k);
    var q', r' := y / k, y % k;
    MulDistributes(q', -(q + n), k);
    NearMultiple(q' - (q + n), k, r - r');
  }

  lemma NearMultiple(d: int, k: int, r: int)
    requires k > 0 && d * k == r && -k < r < k
    ensures d == 0
  {
    MulOrder(d, 1, k);
    MulOrder(-1, d, k);
  }
}

/** Milliseconds, and the ends of i64 and u64. */
module Units {
  const HOUR_MS: int := 3_600_000
  const DAY_MS: int := 86_400_000
  const I64_MIN: int := -0x8000_0000_0000_0000
  const I64_MAX: int := 0x7fff_ffff_ffff_ffff
  const U64_MAX: int := 0xffff_ffff_ffff_ffff
}

/** Signs of products and quotients of reals, one step at a time. */
module Reals {

  lemma MulNonNegative(x: real, y: real)
    requires x >= 0.0 && y >= 0.0
    ensures x * y >= 0.0
  {
  }

  lemma FactorNonNegative(x: real, y: real)
    requires x * y >= 0.0 && y > 0.0
    ensures x >= 0.0
  {
  }

  lemma Quotient(a: real, b: real)
    requires b > 0.0
    ensures a / b * b == a
    ensures a >= 0.0 ==> a / b >= 0.0
  {
  }
}
