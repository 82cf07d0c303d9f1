/** Word sizes, and the little integer arithmetic that the other modules need. */
module Arith {
  const WRAP: int := 0x1_0000_0000
  const WRAP64: int := 0x1_0000_0000_0000_0000

  function Min(a: int, b: int): (m: int)
    ensures m <= a && m <= b && (m == a || m == b)
  {
    if a < b then a else b
  }

  /** A product of reals, named so that it is not multiplied out. */
  function Times(x: real, y: real): real { x * y }

  lemma {:induction false} MulAssoc(a: int, b: int, c: int)
    ensures a * b * c == a * (b * c)
  {
  }

  lemma {:induction false} MulMono(a: int, b: int, d: nat)
    requires a <= b
    ensures a * d <= b * d
  {
  }

  lemma {:induction false} MulCancel(a: int, b: int, d: nat)
    requires d > 0
    requires a * d < b * d
    ensures a < b
  {
  }

  lemma {:induction false} MulSmall(n: nat, x: int)
    requires n > 0 && 0 <= x * n < n
    ensures x == 0
  {
    MulCancel(x, 1, n);
    MulCancel(-1, x, n);
  }

  lemma {:induction false} DivExact(n: nat, q: int)
    requires n > 0
    ensures (n * q) / n == q && (n * q) % n == 0
  {
    var a, r := (n * q) / n, (n * q) % n;
    assert n * q == n * a + r;
    assert (q - a) * n == r;
    MulSmall(n, q - a);
  }

  lemma {:induction false} DivParts(n: nat, x: int)
    requires n > 0
    ensures x == n * (x / n) + x % n && 0 <= x % n < n
  {
  }

  /** Stepping from one multiple of n to the next. */
  lemma {:induction false} NextMultiple(n: nat, x: nat, y: nat)
    requires n > 0 && x % n == 0 && y % n == 0 && x < y
    ensures (x + n) % n == 0 && x + n <= y && (y - x) % n == 0 && y - x == ((y - x) / n) * n && (y - x) / n > 0
  {
    var a, b := x / n, y / n;
    DivParts(n, x);
    DivParts(n, y);
    MulCancel(a, b, n);
    MulMono(a + 1, b, n);
    assert x + n == n * (a + 1) && y - x == n * (b - a);
    DivExact(n, a + 1);
    DivExact(n, b - a);
  }

  lemma {:induction false} SumOfMultiples(n: nat, x: nat, y: nat)
    requires n > 0 && x % n == 0 && y % n == 0
    ensures (x + y) % n == 0
  {
    DivParts(n, x);
    DivParts(n, y);
    assert x + y == n * (x / n + y / n);
    DivExact(n, x / n + y / n);
  }
}
