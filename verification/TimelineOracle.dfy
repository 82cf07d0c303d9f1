/**
 * When does the stream that is played agree with the obvious reading of the queue, where
 * every position gets the sample of the first packet that covers it? Exactly when no packet
 * comes too late for a hole that has already been played as silence.
 */
module TimelineOracle {
  import opened DepacketizerSpec
  import opened Timeline

  /** The first packet of the queue that covers p decides. */
  function Oracle(q: seq<Ext>, p: int): Cell {
    if q == [] then Gap
    else if q[0].Covers(p) then Audio(q[0].samples[p - q[0].start])
    else Oracle(q[1..], p)
  }

  /** Position reached when the first j packets are played or dropped. */
  function Reach(q: seq<Ext>, pos: int, j: nat): int
    requires j <= |q|
    decreases j
  {
    if j == 0 then pos else Reach(q[1..], Max(pos, q[0].End()), j - 1)
  }

  ghost predicate FirstCover(q: seq<Ext>, j: nat, p: int) {
    j < |q| && q[j].Covers(p) && forall i :: 0 <= i < j ==> !q[i].Covers(p)
  }

  /** Packet j is the first to cover p, but p has been passed before j is fetched. */
  ghost predicate LateAt(q: seq<Ext>, pos: int, j: nat, p: int) {
    FirstCover(q, j, p) && p < Reach(q, pos, j)
  }

  ghost predicate HoleFree(q: seq<Ext>, pos: int) {
    forall j: nat, p :: p >= pos ==> !LateAt(q, pos, j, p)
  }

  lemma {:induction false} ReachGrows(q: seq<Ext>, pos: int, j: nat)
    requires j <= |q|
    ensures pos <= Reach(q, pos, j)
    decreases j
  {
    if j > 0 {
      ReachGrows(q[1..], Max(pos, q[0].End()), j - 1);
    }
  }

  lemma {:induction false} OracleCovered(q: seq<Ext>, p: int) returns (j: nat)
    ensures Oracle(q, p) == Gap ==> forall i :: 0 <= i < |q| ==> !q[i].Covers(p)
    ensures Oracle(q, p) != Gap ==> FirstCover(q, j, p) && Oracle(q, p) == Audio(q[j].samples[p - q[j].start])
  {
    j := 0;
    if q != [] && !q[0].Covers(p) {
      var i := OracleCovered(q[1..], p);
      j := i + 1;
      assert forall k :: 1 <= k < |q| ==> q[k] == q[1..][k - 1];
    }
  }

  lemma {:induction false} LateTail(q: seq<Ext>, pos: int, j: nat, p: int)
    requires q != [] && !q[0].Covers(p) && j > 0
    ensures LateAt(q, pos, j, p) <==> LateAt(q[1..], Max(pos, q[0].End()), j - 1, p)
  {
    var t := q[1..];
    assert forall k :: 0 <= k < |t| ==> t[k] == q[k + 1];
    assert FirstCover(q, j, p) <==> FirstCover(t, j - 1, p) by {
      if FirstCover(t, j - 1, p) {
        assert forall k :: 1 <= k < j ==> q[k] == t[k - 1];
      }
    }
  }

  /** At one position: played and expected cell agree unless a packet comes too late for it. */
  lemma {:induction false} AgreeAtIff(q: seq<Ext>, pos: int, p: int)
    requires p >= pos
    ensures Emit(q, pos, p) == Oracle(q, p) <==> forall j: nat :: !LateAt(q, pos, j, p)
  {
    if q != [] {
      var next := Max(pos, q[0].End());
      if q[0].Covers(p) {
        assert forall j: nat :: FirstCover(q, j, p) ==> j == 0;
      } else {
        forall j: nat | j > 0
          ensures LateAt(q, pos, j, p) <==> LateAt(q[1..], next, j - 1, p)
        {
          LateTail(q, pos, j, p);
        }
        if p < next {
          var j := OracleCovered(q[1..], p);
          if Oracle(q[1..], p) == Gap {
            assert forall k :: 0 <= k < |q[1..]| ==> !q[1..][k].Covers(p);
          } else {
            ReachGrows(q[1..], next, j);
            assert LateAt(q[1..], next, (j + 1) - 1, p);
            assert LateAt(q, pos, j + 1, p);
          }
        } else {
          AgreeAtIff(q[1..], next, p);
          if j: nat :| LateAt(q[1..], next, j, p) {
            assert LateAt(q[1..], next, (j + 1) - 1, p);
            assert LateAt(q, pos, j + 1, p);
          }
        }
      }
    }
  }

  /** The whole stream is the obvious one if and only if no packet comes too late for a hole. */
  lemma {:induction false} PlaysOracleIff(q: seq<Ext>, pos: int)
    ensures (forall p :: p >= pos ==> Emit(q, pos, p) == Oracle(q, p)) <==> HoleFree(q, pos)
  {
    hide Emit, Oracle, LateAt;
    if HoleFree(q, pos) {
      forall p | p >= pos
        ensures Emit(q, pos, p) == Oracle(q, p)
      {
        AgreeAtIff(q, pos, p);
      }
    } else {
      var j: nat, p :| p >= pos && LateAt(q, pos, j, p);
      AgreeAtIff(q, pos, p);
    }
  }

  ghost predicate SortedByStart(q: seq<Ext>) {
    forall i, j :: 0 <= i < j < |q| ==> q[i].start <= q[j].start
  }

  /** Packets in stream order, as the sorted queue delivers them, never come too late. */
  lemma {:induction false} SortedIsHoleFree(q: seq<Ext>)
    requires SortedByStart(q)
    ensures HoleFree(q, Origin0(q))
  {
    forall j: nat, p | p >= Origin0(q) && FirstCover(q, j, p)
      ensures p >= Reach(q, Origin0(q), j)
    {
      ReachIsSomeEnd(q, Origin0(q), j, p);
    }
  }

  lemma {:induction false} ReachIsSomeEnd(q: seq<Ext>, pos: int, j: nat, p: int)
    requires j <= |q|
    requires p >= pos
    requires forall i :: 0 <= i < j ==> p >= q[i].End() || q[i].start > p
    requires forall i :: 0 <= i < j ==> q[i].start <= p
    ensures p >= Reach(q, pos, j)
    decreases j
  {
    if j > 0 {
      assert forall i :: 0 <= i < j - 1 ==> q[1..][i] == q[i + 1];
      ReachIsSomeEnd(q[1..], Max(pos, q[0].End()), j - 1, p);
    }
  }

  /** Out of order it does happen: a packet that reaches back over a gap is played as silence there. */
  lemma {:induction false} ReorderingMakesHoles(a: Tick, b: Tick, c: Tick, d: Tick)
    ensures var q := [Ext(0, [a], 0), Ext(2, [b], 0), Ext(1, [c, c, d], 0)];
            && Emit(q, 0, 1) == Gap && Oracle(q, 1) == Audio(c)
            && Emit(q, 0, 3) == Audio(d) && !HoleFree(q, 0)
  {
    var q := [Ext(0, [a], 0), Ext(2, [b], 0), Ext(1, [c, c, d], 0)];
    assert q[1..] == [Ext(2, [b], 0), Ext(1, [c, c, d], 0)];
    assert q[1..][1..] == [Ext(1, [c, c, d], 0)];
    assert Emit(q[1..], 1, 1) == Gap;
    assert Oracle(q[1..], 1) == Audio(c);
    assert Emit(q[1..], 1, 3) == Emit(q[1..][1..], 3, 3);
    PlaysOracleIff(q, 0);
  }
}
