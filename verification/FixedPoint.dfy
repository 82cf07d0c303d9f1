/**
 * Unsigned 32-bit arithmetic and the Q12.20 fixed-point numbers of the built-in
 * resampler. Values are mathematical integers; every place where the program
 * computes modulo 2^32 says so.
 */
module FixedPoint {
  import opened Arith

  /** The fixed-point representation of 1 (20 fractional bits). */
  const ONE: int := 0x10_0000

  type U32 = x: int | 0 <= x < 0x1_0000_0000

  function Add32(a: U32, b: U32): U32 { (a + b) % WRAP }

  function Sub32(a: U32, b: U32): U32 { (a - b) % WRAP }

  /** x & INTEGER_PART_MASK */
  function QFloor(x: U32): U32 { x - x % ONE }

  /** Rounding up wraps to zero above the largest integer. */
  function QCeil(x: U32): U32 {
    if x % ONE == 0 then x else Add32(QFloor(x), ONE)
  }

  function ToSize(x: U32): nat { x / ONE }

  /** Floor and ceiling of a / ONE on unbounded integers. */
  function FloorOf(a: int): int { a / ONE }

  function CeilOf(a: int): int { -((-a) / ONE) }

  function Abs(a: int): nat { if a < 0 then -a else a }

  function Pow2(n: nat): (r: nat)
    ensures r >= 1
  {
    if n == 0 then 1 else 2 * Pow2(n - 1)
  }

  /** Unsigned division, x >> k when d is 2^k. */
  function Quot(x: nat, d: nat): nat
    requires d > 0
  {
    x / d
  }

  lemma {:induction false} QuotBound(x: nat, d: nat, m: nat)
    requires d > 0
    requires x < m * d + d
    ensures Quot(x, d) <= m
  {
    var q := Quot(x, d);
    assert x == d * q + x % d;
    MulCancel(q, m + 1, d);
  }

  lemma {:induction false} Pow2Add(a: nat, b: nat)
    ensures Pow2(a + b) == Pow2(a) * Pow2(b)
    decreases a
  {
    if a > 0 {
      Pow2Add(a - 1, b);
      assert a + b - 1 == (a - 1) + b;
      assert Pow2(a) * Pow2(b) == 2 * (Pow2(a - 1) * Pow2(b));
    }
  }

  lemma {:induction false} Pow2Split(bits: nat)
    requires bits <= 20
    ensures Pow2(bits) * Pow2(20 - bits) == ONE
  {
    Pow2Add(bits, 20 - bits);
    assert Pow2(20) == ONE by {
      assert Pow2(5) == 32;
      Pow2Add(5, 5);
      Pow2Add(10, 10);
      assert Pow2(10) == 1024;
    }
  }

  lemma {:induction false} SubMod(a: int, b: int)
    ensures (a % WRAP - b % WRAP) % WRAP == (a - b) % WRAP
  {
    var q := a / WRAP - b / WRAP;
    assert a % WRAP - b % WRAP == (a - b) - q * WRAP;
  }

  /** Rounding up commutes with reduction modulo 2^32. */
  lemma {:induction false} QCeilWraps(x: int)
    ensures QCeil(x % WRAP) == (CeilOf(x) * ONE) % WRAP
  {
    var q := x / WRAP;
    var y := x % WRAP;
    assert x == q * WRAP + y;
    assert CeilOf(x) == CeilOf(y) + 4096 * q;
    var c := CeilOf(y);
    assert CeilOf(x) * ONE == c * ONE + WRAP * q;
    assert (c * ONE + WRAP * q) % WRAP == (c * ONE) % WRAP;
  }

  /** The integer part of a rounded-up difference, with negative differences wrapped. */
  lemma {:induction false} CeilIndex(x: int)
    requires -WRAP < x <= WRAP - ONE
    ensures ToSize(QCeil(x % WRAP)) == if x <= -ONE then CeilOf(x) + 4096 else CeilOf(x)
  {
    QCeilWraps(x);
    var c := CeilOf(x);
    if x <= -ONE {
      assert (c * ONE) % WRAP == (c + 4096) * ONE;
    } else {
      assert (c * ONE) % WRAP == c * ONE;
    }
  }

  lemma {:induction false} AddSubMod(a: U32, b: U32, c: U32)
    ensures Add32(a, Sub32(b, c)) == (a + b - c) % WRAP
  {
  }

  lemma {:induction false} AddThenSub(a: U32, b: U32, c: U32)
    ensures Sub32(Add32(a, b), c) == (a + b - c) % WRAP
  {
    SubMod(a + b, c);
  }

  /** A frame of the largest size that the configuration check admits has size zero in fixed point. */
  lemma {:induction false} LargestFrameWraps(size: nat)
    requires size <= 4096
    ensures (size * ONE) % WRAP == size * ONE <==> size < 4096
  {
    if size == 4096 {
      assert (size * ONE) % WRAP == 0;
    } else {
      assert size * ONE < WRAP;
    }
  }
}
