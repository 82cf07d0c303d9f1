/** Bytes and little-endian numbers. */
module Bytes {

  type Byte = b: int | 0 <= b < 256

  function Le16(n: int): (s: seq<Byte>)
    requires 0 <= n < 0x1_0000
    ensures |s| == 2
  {
    [n % 256, n / 256]
  }

  function Le32(n: int): (s: seq<Byte>)
    requires 0 <= n < 0x1_0000_0000
    ensures |s| == 4
  {
    Le16(n % 0x1_0000) + Le16(n / 0x1_0000)
  }

  function Read16(s: seq<Byte>): (n: int)
    requires |s| >= 2
    ensures 0 <= n < 0x1_0000
  {
    var low: int, high: int := s[0], s[1];
    low + high * 256
  }

  function Read32(s: seq<Byte>): (n: int)
    requires |s| >= 4
    ensures 0 <= n < 0x1_0000_0000
  {
    Read16(s) + Read16(s[2..]) * 0x1_0000
  }

  lemma {:induction false} Read16Back(n: int)
    requires 0 <= n < 0x1_0000
    ensures Read16(Le16(n)) == n
  {
  }

  lemma {:induction false} Read32Back(n: int)
    requires 0 <= n < 0x1_0000_0000
    ensures Read32(Le32(n)) == n
  {
    var low, high := Le16(n % 0x1_0000), Le16(n / 0x1_0000);
    assert (low + high)[2..] == high;
  }

  /** Two's complement reading of 16 bits. */
  function Signed16(n: int): int
    requires 0 <= n < 0x1_0000
  {
    if n < 0x8000 then n else n - 0x1_0000
  }

  /** It is the one number of 16 bits with a sign that agrees with n modulo 2^16. */
  lemma {:induction false} Signed16Means(n: int, x: int)
    requires 0 <= n < 0x1_0000
    ensures x == Signed16(n) <==> -0x8000 <= x < 0x8000 && (x - n) % 0x1_0000 == 0
  {
  }
}
