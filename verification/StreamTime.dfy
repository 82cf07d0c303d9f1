/** Stream timestamps: 32-bit counters that wrap, compared by signed difference. */
module StreamTime {
  import opened Arith

  const HALF: int := 0x8000_0000

  type Timestamp = x: int | 0 <= x < 0x1_0000_0000

  /** The timestamp of an unbounded stream position. */
  function Stamp(p: int): Timestamp { p % WRAP }

  function Advance(a: Timestamp, n: nat): Timestamp { (a + n) % WRAP }

  /** stream_timestamp_diff: the difference as a signed 32-bit number. */
  function Diff(a: Timestamp, b: Timestamp): int {
    var d := (a - b) % WRAP;
    if d < HALF then d else d - WRAP
  }

  predicate Lt(a: Timestamp, b: Timestamp) { Diff(a, b) < 0 }

  lemma {:induction false} StampAdvance(p: int, n: nat)
    ensures Advance(Stamp(p), n) == Stamp(p + n)
  {
    var q := p / WRAP;
    assert (p % WRAP + n) == (p + n) - q * WRAP;
  }

  lemma {:induction false} StampSub(p: int, q: int)
    ensures (Stamp(p) - Stamp(q)) % WRAP == (p - q) % WRAP
  {
    var k := p / WRAP - q / WRAP;
    assert Stamp(p) - Stamp(q) == (p - q) - k * WRAP;
  }

  /** Positions less than half the range apart are compared as their timestamps are. */
  lemma {:induction false} NearDiff(p: int, q: int)
    requires -HALF <= p - q < HALF
    ensures Diff(Stamp(p), Stamp(q)) == p - q
  {
    StampSub(p, q);
  }

  /** A timestamp less than half the range ahead. */
  lemma {:induction false} DiffAhead(pos: Timestamp, ts: Timestamp)
    requires (pos - ts) % WRAP < HALF
    ensures Diff(pos, ts) == (pos - ts) % WRAP
    ensures pos == ts <==> (pos - ts) % WRAP == 0
    ensures pos != ts ==> Lt(ts, pos)
  {
  }
}
