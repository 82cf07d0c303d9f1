/**
 * When the table search ends, for any list of tables: it ends within a bound given by the length of
 * the list or never, and what it finds then does not depend on how long it was watched.
 */
module SearchBounds {
  import opened Finite
  import opened MixMatrix
  import opened MixSearch
  import opened Options

  /** Rounds that tell whether the walk for an upmixing table ends. */
  function Rounds(tables: seq<Table>): nat { |tables| + 1 }

  /** Moves that tell whether the search ends. */
  function Limit(tables: seq<Table>): nat { 2 * |tables| + 1 }

  // ---------------------------------------------------------------- the walk

  lemma {:induction false} MoreRounds(tables: seq<Table>, cur: set<nat>, next: set<nat>, found: Option<nat>, r: nat, r': nat)
    requires found.Some? ==> found.value < |tables| && cur <= tables[found.value].outMask
    requires UpmixSearch(tables, cur, next, found, r).Ended? && r <= r'
    ensures UpmixSearch(tables, cur, next, found, r') == UpmixSearch(tables, cur, next, found, r)
    decreases r
  {
    var b := BestUpmix(tables, cur, next);
    if b.Some? {
      MoreRounds(tables, cur, tables[b.value].outMask, b, r - 1, r' - 1);
    }
  }

  ghost function WalkStep(tables: seq<Table>, cur: set<nat>): nat -> Option<nat> {
    (b: nat) => if b < |tables| then BestUpmix(tables, cur, tables[b].outMask) else None
  }

  lemma {:induction false} WalkIsOrbit(tables: seq<Table>, cur: set<nat>, b: nat, r: nat)
    requires b < |tables| && cur <= tables[b].outMask
    ensures UpmixSearch(tables, cur, tables[b].outMask, Some(b), r).Ended? <==> Orbit(WalkStep(tables, cur), b, r).None?
    decreases r
  {
    if r > 0 {
      var next := BestUpmix(tables, cur, tables[b].outMask);
      assert WalkStep(tables, cur)(b) == next;
      if next.Some? {
        WalkIsOrbit(tables, cur, next.value, r - 1);
      }
    }
  }

  /** A walk that ever ends does so within the bound, with the same answer. */
  lemma {:induction false} WalkEndsSoon(tables: seq<Table>, cur: set<nat>, out: set<nat>, r: nat)
    requires UpmixSearch(tables, cur, out, None, r).Ended?
    ensures UpmixSearch(tables, cur, out, None, Rounds(tables)) == UpmixSearch(tables, cur, out, None, r)
  {
    if r <= Rounds(tables) {
      MoreRounds(tables, cur, out, None, r, Rounds(tables));
    } else {
      var b := BestUpmix(tables, cur, out);
      if b.Some? {
        WalkIsOrbit(tables, cur, b.value, r - 1);
        WalkIsOrbit(tables, cur, b.value, |tables|);
        if Orbit(WalkStep(tables, cur), b.value, |tables|).Some? {
          OrbitBound(WalkStep(tables, cur), |tables|, b.value, r - 1);
        }
      }
      assert UpmixSearch(tables, cur, out, None, Rounds(tables)).Ended?;
      MoreRounds(tables, cur, out, None, Rounds(tables), r);
    }
  }

  lemma {:induction false} MoveSettles(tables: seq<Table>, cur: set<nat>, out: set<nat>, r: nat)
    requires !NextMove(tables, cur, out, r).Hang?
    ensures NextMove(tables, cur, out, Rounds(tables)) == NextMove(tables, cur, out, r)
  {
    hide UpmixSearch;
    if !CanDownmix(tables, cur, out) {
      WalkEndsSoon(tables, cur, out, r);
    }
  }

  // ---------------------------------------------------------------- the search

  lemma {:induction false} MappingSettles(
    tables: seq<Table>, acc: Option<Matrix>, cur: set<nat>, out: set<nat>, r: nat, k: nat)
    requires GoodTables(tables) && Mapping(tables, acc, cur, out, r, k).Mapped?
    ensures Mapping(tables, acc, cur, out, Rounds(tables), k) == Mapping(tables, acc, cur, out, r, k)
    decreases k
  {
    hide NextMove, Extend, GoodTables;
    var m := NextMove(tables, cur, out, r);
    MoveSettles(tables, cur, out, r);
    if m.Down? || m.Up? {
      MappingSettles(tables, Some(Extend(tables, acc, cur, m)), After(tables, cur, m), out, r, k - 1);
    }
  }

  lemma {:induction false} MoreMoves(
    tables: seq<Table>, acc: Option<Matrix>, cur: set<nat>, out: set<nat>, r: nat, k: nat, k': nat)
    requires GoodTables(tables) && Mapping(tables, acc, cur, out, r, k).Mapped? && k <= k'
    ensures Mapping(tables, acc, cur, out, r, k') == Mapping(tables, acc, cur, out, r, k)
    decreases k
  {
    hide NextMove, Extend, GoodTables;
    var m := NextMove(tables, cur, out, r);
    if m.Down? || m.Up? {
      MoreMoves(tables, Some(Extend(tables, acc, cur, m)), After(tables, cur, m), out, r, k - 1, k' - 1);
    }
  }

  /** A move by number: downmixes first, then upmixes. */
  ghost function Number(tables: seq<Table>, m: Move): nat
    requires m.Down? || m.Up?
  {
    if m.Down? then m.table else |tables| + m.table
  }

  /** The channels after a move. */
  ghost function Place(tables: seq<Table>, x: nat): set<nat>
    requires x < 2 * |tables|
  {
    if x < |tables| then tables[x].outMask else tables[x - |tables|].inMask
  }

  ghost function MoveStep(tables: seq<Table>, out: set<nat>, r: nat): nat -> Option<nat> {
    (x: nat) => if x >= 2 * |tables| then None
         else
           var m := NextMove(tables, Place(tables, x), out, r);
           match m
           case Stop => None
           case Hang => Some(x)
           case Down(_) => Some(Number(tables, m))
           case Up(_) => Some(Number(tables, m))
  }

  lemma {:induction false} StaysForever(step: nat -> Option<nat>, x: nat, k: nat)
    requires step(x) == Some(x)
    ensures Orbit(step, x, k) == Some(x)
    decreases k
  {
    if k > 0 {
      StaysForever(step, x, k - 1);
    }
  }

  lemma {:induction false} MappingIsOrbit(tables: seq<Table>, acc: Option<Matrix>, x: nat, out: set<nat>, r: nat, k: nat)
    requires GoodTables(tables) && x < 2 * |tables|
    ensures Mapping(tables, acc, Place(tables, x), out, r, k).Mapped? <==> Orbit(MoveStep(tables, out, r), x, k).None?
    decreases k
  {
    hide NextMove, Extend, GoodTables;
    if k > 0 {
      var cur, step := Place(tables, x), MoveStep(tables, out, r);
      var m := NextMove(tables, cur, out, r);
      if m.Hang? {
        StaysForever(step, x, k);
      } else if !m.Stop? {
        assert step(x) == Some(Number(tables, m));
        MappingIsOrbit(tables, Some(Extend(tables, acc, cur, m)), Number(tables, m), out, r, k - 1);
      }
    }
  }

  lemma {:induction false} MoveStepBounded(tables: seq<Table>, out: set<nat>, r: nat)
    ensures forall x :: MoveStep(tables, out, r)(x).Some? ==> MoveStep(tables, out, r)(x).value < 2 * |tables|
  {
    hide NextMove;
  }

  lemma {:induction false} LaterMovesEnd(tables: seq<Table>, acc: Option<Matrix>, x: nat, out: set<nat>, r: nat, k: nat)
    requires GoodTables(tables) && x < 2 * |tables| && Mapping(tables, acc, Place(tables, x), out, r, k).Mapped?
    ensures Mapping(tables, acc, Place(tables, x), out, r, 2 * |tables|).Mapped?
  {
    hide NextMove, Mapping, GoodTables;
    MappingIsOrbit(tables, acc, x, out, r, k);
    MappingIsOrbit(tables, acc, x, out, r, 2 * |tables|);
    MoveStepBounded(tables, out, r);
    if Orbit(MoveStep(tables, out, r), x, 2 * |tables|).Some? {
      OrbitBound(MoveStep(tables, out, r), 2 * |tables|, x, k);
    }
  }

  /** The outcome of the search, watched for as long as it takes to know. */
  function Search(tables: seq<Table>, ins: set<nat>, out: set<nat>): Outcome
    requires GoodTables(tables)
  {
    Mapping(tables, None, ins, out, Rounds(tables), Limit(tables))
  }

  lemma {:induction false} EndsWithinLimit(tables: seq<Table>, ins: set<nat>, out: set<nat>, k: nat)
    requires GoodTables(tables) && Mapping(tables, None, ins, out, Rounds(tables), k).Mapped?
    ensures Search(tables, ins, out).Mapped?
  {
    hide NextMove, Extend, GoodTables;
    var r := Rounds(tables);
    var m := NextMove(tables, ins, out, r);
    if m.Down? || m.Up? {
      LaterMovesEnd(tables, Some(Extend(tables, None, ins, m)), Number(tables, m), out, r, k - 1);
    }
  }

  /**
   * Watched with any numbers of rounds and moves, a search that ends has the outcome it has within
   * the bounds. So it ends if and only if it ends there, and the mapping does not depend on the numbers.
   */
  lemma {:induction false} SearchSettles(tables: seq<Table>, ins: set<nat>, out: set<nat>, r: nat, k: nat)
    requires GoodTables(tables) && Mapping(tables, None, ins, out, r, k).Mapped?
    ensures Mapping(tables, None, ins, out, r, k) == Search(tables, ins, out)
  {
    hide Mapping, GoodTables;
    MappingSettles(tables, None, ins, out, r, k);
    EndsWithinLimit(tables, ins, out, k);
    if k <= Limit(tables) {
      MoreMoves(tables, None, ins, out, Rounds(tables), k, Limit(tables));
    } else {
      MoreMoves(tables, None, ins, out, Rounds(tables), Limit(tables), k);
    }
  }
}
