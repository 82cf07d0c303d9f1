/**
 * Which searches end. With tables in a suitable order all those end whose input and output have more
 * than a core of channels that every mask contains; for the shipped tables the exact condition follows.
 */
module SearchEnds {
  import opened MixMatrix
  import opened MixSearch
  import opened Options
  import opened SearchBounds
  import opened ShippedTables

  // ---------------------------------------------------------------- ordered tables

  /**
   * Downmixes from an output mask to a target outside the core use an earlier table, upmixes from an
   * input mask a later one, and no input mask is within the core.
   */
  ghost predicate Ordered(tables: seq<Table>, core: set<nat>) {
    && (forall t: nat, target: set<nat> ::
          t < |tables| && target <= tables[t].outMask && !(target <= core) &&
          NextDownmix(tables, tables[t].outMask, target).Some? ==>
            NextDownmix(tables, tables[t].outMask, target).value < t)
    && (forall t: nat, u: nat :: t < |tables| && u < |tables| && tables[t].inMask <= tables[u].outMask ==> t < u)
    && (forall t: nat :: t < |tables| ==> !(tables[t].inMask <= core))
  }

  lemma {:induction false} WalkDescends(tables: seq<Table>, core: set<nat>, cur: set<nat>, b: nat, r: nat)
    requires Ordered(tables, core) && !(cur <= core) && b < |tables| && cur <= tables[b].outMask && b < r
    ensures UpmixSearch(tables, cur, tables[b].outMask, Some(b), r).Ended?
    decreases b
  {
    var next := BestUpmix(tables, cur, tables[b].outMask);
    if next.Some? {
      WalkDescends(tables, core, cur, next.value, r - 1);
    }
  }

  lemma {:induction false} WalkEnds(tables: seq<Table>, core: set<nat>, cur: set<nat>, out: set<nat>)
    requires Ordered(tables, core) && !(cur <= core)
    ensures UpmixSearch(tables, cur, out, None, Rounds(tables)).Ended?
  {
    var b := BestUpmix(tables, cur, out);
    if b.Some? {
      WalkDescends(tables, core, cur, b.value, |tables|);
    }
  }

  /** From an output mask that covers the target only downmixes follow, with earlier and earlier tables. */
  lemma {:induction false} DownsEnd(tables: seq<Table>, core: set<nat>, acc: Option<Matrix>, t: nat, out: set<nat>, k: nat)
    requires GoodTables(tables) && Ordered(tables, core) && !(out <= core)
    requires t < |tables| && out <= tables[t].outMask && t < k
    ensures Mapping(tables, acc, tables[t].outMask, out, Rounds(tables), k).Mapped?
    decreases t
  {
    hide Extend, GoodTables, CanDownmix;
    var cur := tables[t].outMask;
    var m := NextMove(tables, cur, out, Rounds(tables));
    NothingToLose(tables, out, cur, 0);
    if m.Down? {
      DownsEnd(tables, core, Some(Extend(tables, acc, cur, m)), m.table, out, k - 1);
    }
  }

  /** From an input mask upmixes use later and later tables, until the first downmix. */
  lemma {:induction false} UpsEnd(tables: seq<Table>, core: set<nat>, acc: Option<Matrix>, t: nat, out: set<nat>, k: nat)
    requires GoodTables(tables) && Ordered(tables, core) && !(out <= core)
    requires t < |tables| && 2 * |tables| - t <= k
    ensures Mapping(tables, acc, tables[t].inMask, out, Rounds(tables), k).Mapped?
    decreases |tables| - t
  {
    hide Extend, GoodTables, CanDownmix, UpmixSearch;
    var cur := tables[t].inMask;
    var m := NextMove(tables, cur, out, Rounds(tables));
    WalkEnds(tables, core, cur, out);
    if m.Down? {
      DownsEnd(tables, core, Some(Extend(tables, acc, cur, m)), m.table, out, k - 1);
    } else if m.Up? {
      UpsEnd(tables, core, Some(Extend(tables, acc, cur, m)), m.table, out, k - 1);
    }
  }

  lemma {:induction false} OrderedEnds(tables: seq<Table>, core: set<nat>, ins: set<nat>, out: set<nat>)
    requires GoodTables(tables) && Ordered(tables, core) && !(ins <= core) && !(out <= core)
    ensures Search(tables, ins, out).Mapped?
  {
    hide Extend, GoodTables, CanDownmix, UpmixSearch;
    var m := NextMove(tables, ins, out, Rounds(tables));
    WalkEnds(tables, core, ins, out);
    if m.Down? {
      DownsEnd(tables, core, Some(Extend(tables, None, ins, m)), m.table, out, Limit(tables) - 1);
    } else if m.Up? {
      UpsEnd(tables, core, Some(Extend(tables, None, ins, m)), m.table, out, Limit(tables) - 1);
    }
  }

  // ---------------------------------------------------------------- the shipped tables

  lemma {:induction false} FirstFits(tables: seq<Table>, cur: set<nat>, out: set<nat>, k: nat, w: nat)
    requires k <= w < |tables| && DownFits(tables[w], cur, out)
    ensures NextDownmix(tables, cur, out, k).Some? && NextDownmix(tables, cur, out, k).value <= w
    decreases |tables| - k
  {
    if k < w {
      FirstFits(tables, cur, out, k + 1, w);
    }
  }

  lemma {:induction false} ShippedDownmix(tables: seq<Table>, t: nat, target: set<nat>)
    requires Shipped(tables) && t < SHIPPED && target <= tables[t].outMask && !(target <= {LFE})
    requires NextDownmix(tables, tables[t].outMask, target).Some?
    ensures NextDownmix(tables, tables[t].outMask, target).value < t
  {
    hide InCode, OutCode, Chans, Within, Before, Serves, Shipped;
    Length(tables);
    var u := NextDownmix(tables, tables[t].outMask, target).value;
    if t <= u {
      var w := SomeServes(tables, t, u, target);
      FirstFits(tables, tables[t].outMask, target, 0, w);
    }
  }

  lemma {:induction false} SomeServes(tables: seq<Table>, t: nat, u: nat, target: set<nat>) returns (w: nat)
    requires Shipped(tables) && t <= u < SHIPPED && target <= tables[t].outMask && !(target <= {LFE})
    requires DownFits(tables[u], tables[t].outMask, target)
    ensures w < t && DownFits(tables[w], tables[t].outMask, target)
  {
    hide InCode, OutCode, Chans, Within, Before, Serves;
    var m := OutCode(t);
    var kept := m & OutCode(u);
    Meet(target, m, OutCode(u));
    SmallCodes();
    WithinIsSubset(m, InCode(u));
    WithinIsSubset(m, OutCode(u));
    EarlierServes(t, u);
    w := if Serves(Before(m).0, t, m, kept) then Before(m).0 else Before(m).1;
    ServesFits(tables, t, w, target, kept);
  }

  lemma {:induction false} ServesFits(tables: seq<Table>, t: nat, w: nat, target: set<nat>, kept: Code)
    requires Shipped(tables) && t < SHIPPED && target <= Chans(kept) && Serves(w, t, OutCode(t), kept)
    ensures w < t && DownFits(tables[w], tables[t].outMask, target)
  {
    hide InCode, OutCode, Chans, Within;
    WithinIsSubset(OutCode(t), InCode(w));
    WithinIsSubset(OutCode(t), OutCode(w));
    WithinIsSubset(kept, OutCode(w));
  }

  lemma {:induction false} ShippedOrdered(tables: seq<Table>)
    requires Shipped(tables)
    ensures Ordered(tables, {LFE})
  {
    hide InCode, OutCode, Chans, Within;
    forall t: nat, target: set<nat> |
      t < |tables| && target <= tables[t].outMask && !(target <= {LFE}) &&
      NextDownmix(tables, tables[t].outMask, target).Some?
      ensures NextDownmix(tables, tables[t].outMask, target).value < t
    {
      ShippedDownmix(tables, t, target);
    }
    forall t: nat, u: nat | t < |tables| && u < |tables| && tables[t].inMask <= tables[u].outMask
      ensures t < u
    {
      WithinIsSubset(InCode(t), OutCode(u));
      UpmixesGrow(t, u);
    }
    forall t: nat | t < |tables|
      ensures !(tables[t].inMask <= {LFE})
    {
      NotSmall(InCode(t));
      HomeIsEarlier(t);
    }
  }

  lemma {:induction false} NotSmall(m: Code)
    ensures Chans(m) <= {LFE} <==> m == 0
  {
    SmallCodes();
    WithinIsSubset(m, 0);
  }

  ghost predicate Inside(tables: seq<Table>, s: set<nat>) { exists t: nat :: t < |tables| && s <= tables[t].inMask }

  /** An output mask is inside some input mask, has more than the core, and contains the core. */
  lemma {:induction false} OutMaskInside(tables: seq<Table>, u: nat)
    requires Shipped(tables) && u < SHIPPED
    ensures Inside(tables, tables[u].outMask) && !(tables[u].outMask <= {LFE}) && LFE in tables[u].outMask
  {
    hide InCode, OutCode, Within;
    HomeIsEarlier(u);
    NotSmall(OutCode(u));
    SmallCodes();
    var h := if OutCode(u) == 0x02 then 0 else Home(OutCode(u));
    WithinIsSubset(OutCode(u), InCode(h));
    assert Within(OutCode(u), InCode(h)) by {
      FirstTable();
    }
    assert tables[u].outMask <= tables[h].inMask;
  }

  lemma {:induction false} FirstTable()
    ensures Within(0x02, InCode(0)) && OutCode(0) == 0x02 && InCode(0) != InCode(1)
    ensures Within(0x02, InCode(3)) && !Within(0x02, OutCode(3))
  {
  }

  /** Some table loses a channel of any channels inside a mask that are not just the core. */
  lemma {:induction false} SomeLoses(tables: seq<Table>, cur: set<nat>, u: nat) returns (t: nat)
    requires Shipped(tables) && u < SHIPPED && cur <= tables[u].inMask && !(cur <= {LFE})
    ensures t < SHIPPED && cur <= tables[t].inMask && !(cur <= tables[t].outMask)
    decreases u
  {
    hide InCode, OutCode, Within, Chans;
    if !(cur <= tables[u].outMask) {
      return u;
    }
    HomeIsEarlier(u);
    if OutCode(u) == 0x02 {
      FirstTable();
      SmallCodes();
      WithinIsSubset(0x02, InCode(3));
      WithinIsSubset(0x02, OutCode(3));
      NotSmall(OutCode(3));
      OutMaskInside(tables, 3);
      t := 3;
      assert FC in cur;
      assert FC !in tables[3].outMask;
    } else {
      var h := Home(OutCode(u));
      WithinIsSubset(OutCode(u), InCode(h));
      t := SomeLoses(tables, cur, h);
    }
  }

  lemma {:induction false} AlwaysDownmixes(tables: seq<Table>, cur: set<nat>, out: set<nat>)
    requires Shipped(tables) && Inside(tables, cur) && !(cur <= {LFE}) && out <= {LFE}
    ensures NextDownmix(tables, cur, out).Some?
    ensures var next := tables[NextDownmix(tables, cur, out).value].outMask;
            Inside(tables, next) && !(next <= {LFE})
  {
    hide Shipped;
    var u: nat :| u < |tables| && cur <= tables[u].inMask;
    Length(tables);
    var t := SomeLoses(tables, cur, u);
    OutMaskInside(tables, t);
    FirstFits(tables, cur, out, 0, t);
    OutMaskInside(tables, NextDownmix(tables, cur, out).value);
  }

  lemma {:induction false} Length(tables: seq<Table>)
    requires Shipped(tables)
    ensures |tables| == SHIPPED
  {
  }

  lemma {:induction false} CanAlwaysDownmix(tables: seq<Table>, cur: set<nat>, out: set<nat>, k: nat, u: nat)
    requires Shipped(tables) && k <= u < |tables| && cur <= tables[u].inMask && out <= {LFE}
    ensures CanDownmix(tables, cur, out, k)
    decreases u - k
  {
    hide Shipped;
    Length(tables);
    if cur <= tables[k].inMask {
      OutMaskInside(tables, k);
      assert out <= tables[k].outMask;
    } else {
      CanAlwaysDownmix(tables, cur, out, k + 1, u);
    }
  }

  /** Nothing but the low-frequency channel asked for: there is always another downmix. */
  lemma {:induction false} DownmixesForever(
    tables: seq<Table>, acc: Option<Matrix>, cur: set<nat>, out: set<nat>, r: nat, k: nat)
    requires GoodTables(tables) && Shipped(tables) && Inside(tables, cur) && !(cur <= {LFE}) && out <= {LFE}
    ensures Mapping(tables, acc, cur, out, r, k).Unfinished?
    decreases k
  {
    hide Extend, GoodTables, Shipped, CanDownmix, NextDownmix, Inside;
    if k > 0 {
      InsideTable(tables, cur, out);
      AlwaysDownmixes(tables, cur, out);
      var m := NextMove(tables, cur, out, r);
      DownmixesForever(tables, Some(Extend(tables, acc, cur, m)), After(tables, cur, m), out, r, k - 1);
    }
  }

  lemma {:induction false} InsideTable(tables: seq<Table>, cur: set<nat>, out: set<nat>)
    requires Shipped(tables) && Inside(tables, cur) && out <= {LFE}
    ensures CanDownmix(tables, cur, out)
  {
    var u: nat :| u < |tables| && cur <= tables[u].inMask;
    CanAlwaysDownmix(tables, cur, out, 0, u);
  }

  /** Nothing but the low-frequency channel given: the walk for an upmixing table goes on forever. */
  lemma {:induction false} WalksForever(
    tables: seq<Table>, cur: set<nat>, next: set<nat>, found: Option<nat>, r: nat)
    requires Shipped(tables) && cur <= {LFE} && Inside(tables, next) && !(next <= {LFE})
    requires found.Some? ==> found.value < |tables| && cur <= tables[found.value].outMask
    ensures UpmixSearch(tables, cur, next, found, r).Going?
    decreases r
  {
    hide Shipped, NextDownmix, Inside;
    if r > 0 {
      AlwaysDownmixes(tables, next, cur);
      var b := BestUpmix(tables, cur, next);
      WalksForever(tables, cur, tables[b.value].outMask, b, r - 1);
    }
  }

  /** From the core alone the first table decides: only its output can be reached by downmixing. */
  lemma {:induction false} CoreDownmix(tables: seq<Table>, cur: set<nat>, out: set<nat>)
    requires Shipped(tables) && cur <= {LFE}
    ensures CanDownmix(tables, cur, out) <==> out <= {FC, LFE}
    ensures NextDownmix(tables, cur, out).None?
  {
    hide InCode, OutCode, Within;
    FirstTable();
    SmallCodes();
    assert LFE in Chans(InCode(0));
    assert tables[0].outMask == {FC, LFE};
    assert tables[1].inMask != tables[0].inMask by {
      WithinIsSubset(InCode(0), InCode(1));
      WithinIsSubset(InCode(1), InCode(0));
      FirstMasks();
    }
    assert cur <= tables[0].inMask;
    assert !ClusterCovers(tables, tables[0].inMask, out, 1);
    NothingLost(tables, cur, out, 0);
  }

  lemma {:induction false} FirstMasks()
    ensures !Within(InCode(0), InCode(1))
  {
  }

  lemma {:induction false} NothingLost(tables: seq<Table>, cur: set<nat>, out: set<nat>, k: nat)
    requires Shipped(tables) && cur <= {LFE} && k <= |tables|
    ensures NextDownmix(tables, cur, out, k).None?
    decreases |tables| - k
  {
    hide Shipped;
    Length(tables);
    if k < |tables| {
      OutMaskInside(tables, k);
      NothingLost(tables, cur, out, k + 1);
    }
  }

  /** Channels outside every mask take part in no move, as input or as output. */
  lemma {:induction false} OutsideStops(tables: seq<Table>, a: set<nat>, b: set<nat>, k: nat)
    requires Shipped(tables) && !Inside(tables, a) && k <= |tables|
    ensures NextDownmix(tables, a, b, k).None? && NextDownmix(tables, b, a, k).None?
    ensures !CanDownmix(tables, a, b, k) && !CanDownmix(tables, b, a, k)
    decreases |tables| - k
  {
    hide Shipped;
    Length(tables);
    if k < |tables| {
      OutsideStops(tables, a, b, k + 1);
      OutMaskInside(tables, k);
      assert !(a <= tables[k].inMask);
      NotCovered(tables, a, tables[k].inMask, k);
      InsideSmaller(tables, a, tables[k].outMask);
    }
  }

  lemma {:induction false} InsideSmaller(tables: seq<Table>, a: set<nat>, b: set<nat>)
    requires Inside(tables, b)
    ensures a <= b ==> Inside(tables, a)
  {
    var u: nat :| u < |tables| && b <= tables[u].inMask;
    assert a <= b ==> a <= tables[u].inMask;
  }

  lemma {:induction false} NotCovered(tables: seq<Table>, a: set<nat>, mask: set<nat>, k: nat)
    requires Shipped(tables) && !Inside(tables, a) && k <= |tables|
    ensures !ClusterCovers(tables, mask, a, k)
    decreases |tables| - k
  {
    hide Shipped;
    Length(tables);
    if k < |tables| {
      OutMaskInside(tables, k);
      InsideSmaller(tables, a, tables[k].outMask);
      NotCovered(tables, a, mask, k + 1);
    }
  }

  /**
   * With the shipped tables the search does not end in exactly two cases: nothing but the low-frequency
   * channel is asked for and something else inside a mask is given, or nothing but it is given and
   * something inside a mask is asked for that the centre and it do not cover.
   */
  lemma {:induction false} SearchEndsIff(tables: seq<Table>, ins: set<nat>, out: set<nat>)
    requires GoodTables(tables) && Shipped(tables)
    ensures Search(tables, ins, out).Mapped? <==>
            && !(out <= {LFE} && !(ins <= {LFE}) && Inside(tables, ins))
            && !(ins <= {LFE} && !(out <= {FC, LFE}) && Inside(tables, out))
  {
    hide Shipped, GoodTables, Inside, NextDownmix, CanDownmix;
    if !(ins <= {LFE}) && !(out <= {LFE}) {
      ShippedOrdered(tables);
      OrderedEnds(tables, {LFE}, ins, out);
    } else if ins <= {LFE} {
      CoreDownmix(tables, ins, out);
      if !(out <= {FC, LFE}) {
        if Inside(tables, out) {
          WalksForever(tables, ins, out, None, Rounds(tables));
        } else {
          OutsideStops(tables, out, ins, 0);
        }
      }
    } else if Inside(tables, ins) {
      DownmixesForever(tables, None, ins, out, Rounds(tables), Limit(tables));
    } else {
      OutsideStops(tables, ins, out, 0);
    }
  }

  /** Stereo to the low-frequency channel or to nothing, and either of these to the left channel, never ends. */
  lemma {:induction false} EndlessSearches(tables: seq<Table>, r: nat, k: nat)
    requires GoodTables(tables) && Shipped(tables)
    ensures Mapping(tables, None, {FL, FR}, {LFE}, r, k).Unfinished? && Mapping(tables, None, {FL, FR}, {}, r, k).Unfinished?
    ensures Mapping(tables, None, {LFE}, {FL}, r, k).Unfinished? && Mapping(tables, None, {}, {FL}, r, k).Unfinished?
  {
    hide Shipped, GoodTables, Mapping, Inside;
    StereoInside(tables);
    Endless(tables, {FL, FR}, {LFE}, r, k);
    Endless(tables, {FL, FR}, {}, r, k);
    Endless(tables, {LFE}, {FL}, r, k);
    Endless(tables, {}, {FL}, r, k);
  }

  lemma {:induction false} StereoInside(tables: seq<Table>)
    requires Shipped(tables)
    ensures Inside(tables, {FL, FR}) && Inside(tables, {FL}) && FL !in {FC, LFE}
  {
    assert InCode(1) == 0x01;
    assert InCodeOf(0x01, FL) && InCodeOf(0x01, FR);
    assert {FL, FR} <= tables[1].inMask && {FL} <= tables[1].inMask;
  }

  lemma {:induction false} Endless(tables: seq<Table>, ins: set<nat>, out: set<nat>, r: nat, k: nat)
    requires GoodTables(tables) && Shipped(tables)
    requires (out <= {LFE} && !(ins <= {LFE}) && Inside(tables, ins)) ||
             (ins <= {LFE} && !(out <= {FC, LFE}) && Inside(tables, out))
    ensures Mapping(tables, None, ins, out, r, k).Unfinished?
  {
    hide Shipped, GoodTables, Mapping, Inside;
    SearchEndsIff(tables, ins, out);
    if Mapping(tables, None, ins, out, r, k).Mapped? {
      SearchSettles(tables, ins, out, r, k);
    }
  }
}
