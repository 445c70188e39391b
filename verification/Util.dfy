/** Alignment arithmetic and the option type shared by the layout models. */
module Util {

  datatype Option<+T> = None | Some(value: T)

  type Byte = x: nat | x < 256

  const PAGE_SIZE: nat := 4096
  const OBJECT_ALIGNMENT: nat := 8
  const TWO_32: nat := 0x1_0000_0000

  /** The least multiple of `n` that is not below `x`. */
  function RoundUp(x: nat, n: nat): (r: nat)
    requires n > 0
    ensures x <= r < x + n
  {
    MultipleInRange(x, n);
    var r: nat :| x <= r < x + n && r % n == 0;
    r
  }

  /** A range of `n` numbers holds exactly one multiple of `n`. */
  lemma {:induction false} MultipleInRange(x: nat, n: nat)
    requires n > 0
    ensures exists r: nat :: x <= r < x + n && r % n == 0
    ensures forall r: nat, s: nat :: x <= r < x + n && r % n == 0 && x <= s < x + n && s % n == 0 ==> r == s
  {
    var r := if x % n == 0 then x else x + n - x % n;
    if x % n != 0 {
      assert x + n - x % n == (x / n + 1) * n;
      MultipleMod(x / n + 1, n);
    }
    assert x <= r < x + n && r % n == 0;
    forall r: nat, s: nat | x <= r < x + n && r % n == 0 && x <= s < x + n && s % n == 0 ensures r == s {
      if r < s {
        MultiplesApart(r, s, n);
      } else if s < r {
        MultiplesApart(s, r, n);
      }
    }
  }

  lemma {:induction false} RoundUpAligned(x: nat, n: nat)
    requires n > 0
    ensures RoundUp(x, n) % n == 0
  {
  }

  /** A quotient and a remainder in range are the quotient and the remainder. */
  lemma {:induction false} DivModUnique(x: int, n: nat, q: int, r: int)
    requires n > 0 && x == q * n + r && 0 <= r < n
    ensures x / n == q && x % n == r
  {
    var d := x / n - q;
    assert d * n == r - x % n by {
      assert x == n * (x / n) + x % n;
      assert d * n == n * (x / n) - q * n;
    }
    MulBounds(d, n);
  }

  lemma {:induction false} MulBounds(d: int, n: int)
    requires n > 0
    ensures d >= 1 ==> d * n >= n
    ensures d <= -1 ==> d * n <= -n
  {
    if d >= 1 {
      assert (d - 1) * n >= 0;
    } else if d <= -1 {
      assert (-1 - d) * n >= 0;
    }
  }

  lemma {:induction false} MultipleMod(q: int, n: nat)
    requires n > 0
    ensures (q * n) % n == 0
  {
    DivModUnique(q * n, n, q, 0);
  }

  lemma {:induction false} ModShift(x: int, k: int, n: nat)
    requires n > 0
    ensures (x + k * n) % n == x % n
  {
    assert x + k * n == (x / n + k) * n + x % n;
    DivModUnique(x + k * n, n, x / n + k, x % n);
  }

  lemma {:induction false} SumOfMultiples(x: nat, y: nat, n: nat)
    requires n > 0 && x % n == 0 && y % n == 0
    ensures (x + y) % n == 0
  {
    ModShift(x, y / n, n);
  }

  lemma {:induction false} RoundUpMonotone(x: nat, y: nat, n: nat)
    requires n > 0 && x <= y
    ensures RoundUp(x, n) <= RoundUp(y, n)
  {
    RoundUpAligned(x, n);
    RoundUpAligned(y, n);
    if RoundUp(y, n) < RoundUp(x, n) {
      MultiplesApart(RoundUp(y, n), RoundUp(x, n), n);
    }
  }

  lemma {:induction false} RoundUpUnique(x: nat, n: nat, z: nat)
    requires n > 0 && x <= z < x + n && z % n == 0
    ensures RoundUp(x, n) == z
  {
    MultipleInRange(x, n);
  }

  lemma {:induction false} MultiplesApart(a: nat, b: nat, n: nat)
    requires n > 0 && a % n == 0 && b % n == 0 && a < b
    ensures a + n <= b
  {
    assert a == n * (a / n) && b == n * (b / n);
    assert b - a == (b / n - a / n) * n;
    MulBounds(b / n - a / n, n);
    MulBounds(a / n - b / n, n);
  }

  /** Rounding to a divisor of `m` moves two values alike that differ by a multiple of `m`. */
  lemma {:induction false} RoundUpTogether(x: nat, y: nat, a: nat, m: nat)
    requires 0 < a && 0 < m && m % a == 0 && (y - x) % m == 0
    ensures RoundUp(y, a) - RoundUp(x, a) == y - x
  {
    var q, r := (y - x) / m, m / a;
    assert y - x == q * m && m == r * a;
    var z := RoundUp(x, a) + (y - x);
    assert y - x == (q * r) * a by {
      assert q * (r * a) == (q * r) * a;
    }
    RoundUpAligned(x, a);
    ModShift(RoundUp(x, a), q * r, a);
    RoundUpUnique(y, a, z);
  }

  /* ---- 32-bit numbers ---- */

  function Word(n: int): (w: nat)
    ensures w < TWO_32
  {
    n % TWO_32
  }

  /** RoundUp on a uint32_t. */
  function RoundUpWord(x: nat, n: nat): (w: nat)
    requires n > 0
    ensures w < TWO_32
  {
    Word(RoundUp(Word(x), n))
  }

  lemma {:induction false} WordSum(x: int, y: int)
    ensures Word(Word(x) + y) == Word(x + y)
  {
    assert x == TWO_32 * (x / TWO_32) + Word(x);
    ModShift(Word(x) + y, x / TWO_32, TWO_32);
  }

  /** Rounding a sum of words gives the word of the rounded sum. */
  lemma {:induction false} RoundWord(x: nat, y: nat, n: nat)
    requires n > 0 && TWO_32 % n == 0
    ensures RoundUpWord(Word(x) + y, n) == Word(RoundUp(x + y, n))
  {
    WordSum(x, y);
    var z := x + y;
    assert z == TWO_32 * (z / TWO_32) + Word(z);
    MultipleMod(z / TWO_32, TWO_32);
    RoundUpTogether(Word(z), z, n, TWO_32);
    ModShift(RoundUp(Word(z), n), z / TWO_32, TWO_32);
  }

  /** Numbers less than 2^32 apart with the same word are equal. */
  lemma {:induction false} WordsDiffer(x: nat, y: nat)
    requires Word(x) == Word(y) && x < y + TWO_32 && y < x + TWO_32
    ensures x == y
  {
  }
}
