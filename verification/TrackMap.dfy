/**
 * Multitrack mapping by track number: what ends up where. A frame holds one sample per track
 * of a set, in ascending track order, so a track sits at its rank.
 */
module TrackMap {

  /** Number of tracks of s below n. */
  function Rank(s: set<nat>, n: nat): nat {
    if n == 0 then 0 else Rank(s, n - 1) + if n - 1 in s then 1 else 0
  }

  lemma {:induction false} RankMonotone(s: set<nat>, a: nat, b: nat)
    requires a <= b
    ensures Rank(s, a) <= Rank(s, b)
    ensures a < b && a in s ==> Rank(s, a) < Rank(s, b)
    decreases b - a
  {
    if a < b {
      RankMonotone(s, a, b - 1);
    }
  }

  /** With all tracks below n, the rank of n is the size of the set. */
  lemma {:induction false} RankIsSize(s: set<nat>, n: nat)
    requires forall c :: c in s ==> c < n
    ensures Rank(s, n) == |s|
    decreases n
  {
    if n == 0 {
      assert s == {};
    } else {
      var t := s - {n - 1};
      RankIsSize(t, n - 1);
      RankWithout(s, n - 1, n - 1);
    }
  }

  lemma {:induction false} RankWithout(s: set<nat>, c: nat, n: nat)
    requires n <= c
    ensures Rank(s - {c}, n) == Rank(s, n)
  {
    if n > 0 {
      RankWithout(s, c, n - 1);
    }
  }

  /** Output for the tracks below n: tracks present on both sides are copied, the others are silent. */
  function Output(a: set<nat>, b: set<nat>, frame: seq<real>, n: nat): seq<real>
    requires Rank(a, n) <= |frame|
    decreases n
  {
    if n == 0 then []
    else
      RankMonotone(a, n - 1, n);
      var head := Output(a, b, frame, n - 1);
      if n - 1 !in b then head
      else if n - 1 in a then head + [frame[Rank(a, n - 1)]]
      else head + [0.0]
  }

  /** Each output track holds the input sample of the same track number, or zero. */
  lemma {:induction false} OutputByTrack(a: set<nat>, b: set<nat>, frame: seq<real>, n: nat, c: nat)
    requires Rank(a, n) <= |frame| && c < n
    ensures |Output(a, b, frame, n)| == Rank(b, n)
    ensures Rank(a, c) <= Rank(a, n) && (c in a ==> Rank(a, c) < Rank(a, n))
    ensures c in b ==>
              && Rank(b, c) < Rank(b, n)
              && Output(a, b, frame, n)[Rank(b, c)] == if c in a then frame[Rank(a, c)] else 0.0
    decreases n
  {
    RankMonotone(a, n - 1, n);
    RankMonotone(a, c, n);
    RankMonotone(b, c, n);
    OutputLength(a, b, frame, n - 1);
    if c < n - 1 {
      OutputByTrack(a, b, frame, n - 1, c);
    }
  }

  lemma {:induction false} OutputLength(a: set<nat>, b: set<nat>, frame: seq<real>, n: nat)
    requires Rank(a, n) <= |frame|
    ensures |Output(a, b, frame, n)| == Rank(b, n)
    decreases n
  {
    if n > 0 {
      RankMonotone(a, n - 1, n);
      OutputLength(a, b, frame, n - 1);
    }
  }

  /** From a to b and back to a: tracks of both sets are restored, the others are silent. */
  lemma {:induction false} ThereAndBack(a: set<nat>, b: set<nat>, frame: seq<real>, n: nat, c: nat)
    requires Rank(a, n) == |frame| && c < n && c in a
    ensures |Output(a, b, frame, n)| == Rank(b, n)
    ensures var back := Output(b, a, Output(a, b, frame, n), n);
            && |back| == |frame| && Rank(a, c) < |frame|
            && back[Rank(a, c)] == if c in b then frame[Rank(a, c)] else 0.0
  {
    OutputByTrack(a, b, frame, n, c);
    OutputByTrack(b, a, Output(a, b, frame, n), n, c);
  }

  /** The walk may start at the first and stop at the last track of either set. */
  lemma {:induction false} NothingOutside(a: set<nat>, b: set<nat>, frame: seq<real>, lo: nat, hi: nat)
    requires lo <= hi && Rank(a, hi) <= |frame|
    requires forall c :: lo <= c < hi ==> c !in a && c !in b
    ensures Rank(a, lo) == Rank(a, hi) && Rank(b, lo) == Rank(b, hi)
    ensures Output(a, b, frame, lo) == Output(a, b, frame, hi)
    decreases hi
  {
    if lo < hi {
      RankMonotone(a, hi - 1, hi);
      NothingOutside(a, b, frame, lo, hi - 1);
    }
  }
}
