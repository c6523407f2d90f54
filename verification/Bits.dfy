/** Bitwise operators of the machine integers, as operations on naturals.

    The sources mask and merge u8, u16 and u32 values. `And` and `Or` are defined bit by bit;
    the lemmas say what the masks that the sources use compute.
 */
module Bits {

  const U16: nat := 0x1_0000
  const U32: nat := 0x1_0000_0000

  type u8 = x: int | 0 <= x < 0x100
  type u16 = x: int | 0 <= x < 0x1_0000
  type u32 = x: int | 0 <= x < 0x1_0000_0000

  function Pow2(k: nat): (r: nat)
    ensures r > 0
  {
    if k == 0 then 1 else 2 * Pow2(k - 1)
  }

  function And(a: nat, b: nat): nat
  {
    if a == 0 || b == 0 then 0
    else 2 * And(a / 2, b / 2) + (if a % 2 == 1 && b % 2 == 1 then 1 else 0)
  }

  function Or(a: nat, b: nat): nat
  {
    if a == 0 then b
    else if b == 0 then a
    else 2 * Or(a / 2, b / 2) + (if a % 2 == 1 || b % 2 == 1 then 1 else 0)
  }

  lemma NonNegative(a: nat, b: nat)
    ensures a * b >= 0
  {
  }

  lemma MulGap(x: int, y: int, d: nat)
    requires x < y
    ensures y * d - x * d >= d
  {
    calc {
      y * d - x * d;
      (y - x) * d;
      (y - x - 1) * d + d;
    }
    NonNegative(y - x - 1, d);
  }

  /** Bitwise complement of a 32-bit word. */
  function Not32(x: u32): u32 { U32 - 1 - x }

  /** Division with remainder has one solution. */
  lemma DivModUnique(a: nat, d: nat, q: nat, r: nat)
    requires 0 <= r < d && a == q * d + r
    ensures a / d == q && a % d == r
  {
    var q' := a / d;
    if q' < q {
      MulGap(q', q, d);
    } else if q < q' {
      MulGap(q, q', d);
    }
  }

  /** The remainder by 2^k is the remainder of the half by 2^(k-1), with the low bit put back. */
  lemma ModHalve(a: nat, k: nat)
    requires k > 0
    ensures a % Pow2(k) == 2 * (a / 2 % Pow2(k - 1)) + a % 2
  {
    var m := Pow2(k - 1);
    var q, r := a / 2 / m, a / 2 % m;
    assert a / 2 == q * m + r;
    assert q * (2 * m) == 2 * (q * m);
    DivModUnique(a, 2 * m, q, 2 * r + a % 2);
  }

  lemma {:induction false} Pow2Monotonic(j: nat, k: nat)
    requires j <= k
    ensures Pow2(j) <= Pow2(k)
    decreases k - j
  {
    if j == k {
    } else {
      Pow2Monotonic(j + 1, k);
    }
  }

  lemma Pow2Values()
    ensures Pow2(8) == 0x100 && Pow2(16) == U16 && Pow2(24) == 0x100_0000 && Pow2(32) == U32
  {
  }

  lemma AndOddMask(a: nat, m: nat)
    requires m > 0
    ensures And(a, 2 * m - 1) == 2 * And(a / 2, m - 1) + a % 2
  {
  }

  /** Masking with k low ones takes the remainder by 2^k. */
  lemma {:induction false} AndLowMask(a: nat, k: nat)
    ensures And(a, Pow2(k) - 1) == a % Pow2(k)
  {
    if k == 0 {
    } else {
      AndLowMask(a / 2, k - 1);
      AndOddMask(a, Pow2(k - 1));
      ModHalve(a, k);
    }
  }

  lemma AndEvenMask(a: nat, mask: nat)
    ensures And(a, 2 * mask) == 2 * And(a / 2, mask)
  {
  }

  /** Clearing low bits of the half and doubling clears one more bit. */
  lemma ClearHalve(a: nat, k: nat)
    requires k > 0
    ensures a - a % Pow2(k) == 2 * (a / 2 - a / 2 % Pow2(k - 1))
  {
    ModHalve(a, k);
  }

  /** The two ends of `AndHighMask`: no bit cleared, and all. */
  lemma AndMaskEnds(a: nat, n: nat)
    requires a < Pow2(n)
    ensures And(a, Pow2(n) - 1) == a && a % Pow2(n) == a
  {
    DivModUnique(a, Pow2(n), 0, a);
    AndLowMask(a, n);
  }

  /** Masking with the ones from bit k up to bit n clears the k low bits. */
  lemma {:induction false} AndHighMask(a: nat, k: nat, n: nat)
    requires k <= n && a < Pow2(n)
    ensures Pow2(k) <= Pow2(n)
    ensures And(a, Pow2(n) - Pow2(k)) == a - a % Pow2(k)
  {
    Pow2Monotonic(k, n);
    if k == 0 || k == n {
      AndMaskEnds(a, n);
    } else {
      HalfBelow(a, Pow2(n - 1));
      AndHighMask(a / 2, k - 1, n - 1);
      AndHighMaskStep(a, k, Pow2(n - 1), Pow2(k - 1));
    }
  }

  lemma AndHighMaskStep(a: nat, k: nat, high: nat, low: nat)
    requires k > 0 && low == Pow2(k - 1) && low <= high
    requires And(a / 2, high - low) == a / 2 - a / 2 % low
    ensures And(a, 2 * high - 2 * low) == a - a % Pow2(k)
  {
    AndEvenMask(a, high - low);
    ClearHalve(a, k);
  }

  lemma HalfBelow(a: nat, high: nat)
    requires a < 2 * high
    ensures a / 2 < high
  {
  }

  /** Or of two numbers without common bits is their sum. */
  lemma {:induction false} OrIsSum(a: nat, b: nat, k: nat)
    requires a % Pow2(k) == 0 && b < Pow2(k)
    ensures Or(a, b) == a + b
  {
    if a == 0 || b == 0 || k == 0 {
    } else {
      ModHalve(a, k);
      OrIsSum(a / 2, b / 2, k - 1);
    }
  }

  /** A big-endian pair of bytes merged as the sources do it: shift, then or. */
  lemma MergeBytes(hi: u8, lo: u8)
    ensures Or(hi * 0x100, lo) == hi * 0x100 + lo
  {
    Pow2Values();
    DivModUnique(hi * 0x100, 0x100, hi, 0);
    OrIsSum(hi * 0x100, lo, 8);
  }

  /** Testing one of the three lowest flag bits. */
  lemma FlagBits(f: nat)
    ensures And(f, 1) == f % 2
    ensures And(f, 2) == 2 * (f / 2 % 2)
    ensures And(f, 4) == 4 * (f / 4 % 2)
  {
  }
}
