/** Division by a power of two done as a right shift (`fast_idiv`). */
module PowerOfTwo {

  function Pow2(k: nat): (p: nat)
    ensures p >= 1
  {
    if k == 0 then 1 else 2 * Pow2(k - 1)
  }

  /** `usize::is_power_of_two`: nonzero with exactly one bit set. */
  predicate IsPowerOfTwo(d: nat)
  {
    d == 1 || (d >= 2 && d % 2 == 0 && IsPowerOfTwo(d / 2))
  }

  /** `usize::trailing_zeros` of a nonzero value: the number of low zero bits. */
  function TrailingZeros(d: nat): nat
    requires d > 0
  {
    if d % 2 == 1 then 0 else 1 + TrailingZeros(d / 2)
  }

  /** `n >> k` on an unsigned integer: drop the `k` low bits, one at a time. */
  function ShiftRight(n: nat, k: nat): nat
  {
    if k == 0 then n else ShiftRight(n / 2, k - 1)
  }

  /**
   * `fast_idiv(n, d)`: shifts `n` right by the number of trailing zeros of
   * `d`. The source demands a power-of-two divisor (a debug assertion, and
   * `d == 0` is declared unreachable); under that demand the shift is exactly
   * integer division.
   */
  function FastIdiv(n: nat, d: nat): (q: nat)
    requires IsPowerOfTwo(d)
    ensures q == n / d
  {
    PowerOfTwoIsPow2OfTrailingZeros(d);
    ShiftRightIsDivision(n, TrailingZeros(d));
    ShiftRight(n, TrailingZeros(d))
  }

  lemma {:induction false} PowerOfTwoIsPow2OfTrailingZeros(d: nat)
    requires IsPowerOfTwo(d)
    ensures d > 0 && Pow2(TrailingZeros(d)) == d
  {
    if d != 1 {
      PowerOfTwoIsPow2OfTrailingZeros(d / 2);
    }
  }

  /** Division with remainder has one answer. */
  lemma DivisionIsUnique(n: int, q: int, t: int, r: int)
    requires q > 0 && 0 <= r < q && n == q * t + r
    ensures n / q == t
  {
    var x := t - n / q;
    assert q * x == n % q - r;
    assert x != 0 ==> q * x >= q || q * x <= -q;
  }

  lemma HalfThenDivide(n: nat, q: nat)
    requires q > 0
    ensures (n / 2) / q == n / (2 * q)
  {
    var t, r := n / (2 * q), n % (2 * q);
    assert n == (2 * q) * t + r;
    DivisionIsUnique(n, 2, q * t + r / 2, r % 2);
    DivisionIsUnique(n / 2, q, t, r / 2);
  }

  /** A right shift by `k` bits divides by `2^k`. */
  lemma {:induction false} ShiftRightIsDivision(n: nat, k: nat)
    ensures ShiftRight(n, k) == n / Pow2(k)
  {
    if k > 0 {
      ShiftRightIsDivision(n / 2, k - 1);
      HalfThenDivide(n, Pow2(k - 1));
    }
  }
}
