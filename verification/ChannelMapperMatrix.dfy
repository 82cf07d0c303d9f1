/**
 * The channel mapping matrix as the program builds it: two-dimensional buffers filled in place,
 * and searches over the table list. Each method is tied to its function in MixMatrix,
 * MixSearch or MixIndex.
 */
module ChannelMatrix {
  import opened Finite
  import opened Options
  import opened MixMatrix
  import opened MixSearch
  import opened MixIndex
  import opened SearchBounds

  ghost predicate Square(a: array2<real>) { a.Length0 == N && a.Length1 == N }

  /** Row o of the buffer is r. */
  ghost predicate HoldsRow(a: array2<real>, o: nat, r: Row)
    reads a
    requires Square(a) && o < N
  {
    forall i :: 0 <= i < N ==> a[o, i] == r[i]
  }

  /** The buffer holds the matrix m. */
  ghost predicate Holds(a: array2<real>, m: Matrix)
    reads a
    requires Square(a)
  {
    forall o :: 0 <= o < N ==> HoldsRow(a, o, m[o])
  }

  lemma {:induction false} HoldsZero(a: array2<real>)
    requires Square(a) && Holds(a, Zero())
    ensures forall o, i :: 0 <= o < N && 0 <= i < N ==> a[o, i] == 0.0
  {
    forall o, i | 0 <= o < N && 0 <= i < N
      ensures a[o, i] == 0.0
    {
      assert HoldsRow(a, o, Zero()[o]);
    }
  }

  method NormalizeRowInPlace(a: array2<real>, o: nat, ghost row: Row)
    requires Square(a) && o < N && HoldsRow(a, o, row)
    modifies a
    ensures HoldsRow(a, o, NormalizeRow(row))
    ensures forall p, i :: 0 <= p < N && 0 <= i < N && p != o ==> a[p, i] == old(a[p, i])
  {
    var total := 0.0;
    for i := 0 to N
      invariant total == Sum(row, i)
    {
      total := total + a[o, i];
    }
    if total == 0.0 {
      return;
    }
    for i := 0 to N
      invariant forall j :: 0 <= j < N ==> a[o, j] == if j < i then row[j] / total else row[j]
      invariant forall p, j :: 0 <= p < N && 0 <= j < N && p != o ==> a[p, j] == old(a[p, j])
    {
      a[o, i] := a[o, i] / total;
    }
  }

  method NormalizeMapping(a: array2<real>, ghost m: Matrix)
    requires Square(a) && Holds(a, m)
    modifies a
    ensures Holds(a, Normalize(m))
  {
    for o := 0 to N
      invariant forall p :: 0 <= p < N ==> HoldsRow(a, p, if p < o then NormalizeRow(m[p]) else m[p])
    {
      assert HoldsRow(a, o, m[o]);
      NormalizeRowInPlace(a, o, m[o]);
    }
  }

  method ZeroBuffer() returns (a: array2<real>)
    ensures fresh(a) && Square(a) && Holds(a, Zero())
  {
    a := new real[N, N]((_, _) => 0.0);
  }

  method CopyBuffer(dst: array2<real>, src: array2<real>, ghost m: Matrix)
    requires Square(dst) && Square(src) && dst != src && Holds(src, m)
    modifies dst
    ensures Holds(dst, m)
  {
    forall o, i | 0 <= o < N && 0 <= i < N {
      dst[o, i] := src[o, i];
    }
    assert forall o :: 0 <= o < N ==> HoldsRow(src, o, m[o]);
  }

  /** Adds one intermediate channel to a row of the product. */
  method AddChannel(comb: array2<real>, prev: array2<real>, o: nat, n: nat, coeff: real, ghost row: Row, ghost mp: Matrix)
    requires Square(comb) && Square(prev) && comb != prev && o < N && n < N
    requires Holds(prev, mp) && row[n] == coeff
    requires forall p :: 0 <= p < N ==> comb[o, p] == ProductEntry(row, mp, p, n)
    modifies comb
    ensures forall p :: 0 <= p < N ==> comb[o, p] == ProductEntry(row, mp, p, n + 1)
    ensures forall q, p :: 0 <= q < N && 0 <= p < N && q != o ==> comb[q, p] == old(comb[q, p])
  {
    assert HoldsRow(prev, n, mp[n]);
    if coeff != 0.0 {
      for p := 0 to N
        invariant forall j :: 0 <= j < N ==> comb[o, j] == ProductEntry(row, mp, j, if j < p then n + 1 else n)
        invariant forall q, j :: 0 <= q < N && 0 <= j < N && q != o ==> comb[q, j] == old(comb[q, j])
        invariant HoldsRow(prev, n, mp[n])
      {
        if prev[n, p] != 0.0 {
          comb[o, p] := comb[o, p] + coeff * prev[n, p];
        }
      }
    }
  }

  /** combine_mappings_: prev becomes the composition of prev and next. */
  method CombineMappings(prev: array2<real>, next: array2<real>, ghost mp: Matrix, ghost mn: Matrix)
    requires Square(prev) && Square(next) && prev != next && Holds(prev, mp) && Holds(next, mn)
    modifies prev
    ensures Holds(prev, Combine(mp, mn))
  {
    var comb := ZeroBuffer();
    HoldsZero(comb);
    for o := 0 to N
      invariant Holds(prev, mp) && Holds(next, mn)
      invariant forall q, p :: 0 <= q < N && 0 <= p < N ==>
        comb[q, p] == if q < o then ProductEntry(mn[q], mp, p, N) else 0.0
      modifies comb
    {
      assert HoldsRow(next, o, mn[o]);
      for n := 0 to N
        invariant Holds(prev, mp) && Holds(next, mn) && HoldsRow(next, o, mn[o])
        invariant forall p :: 0 <= p < N ==> comb[o, p] == ProductEntry(mn[o], mp, p, n)
        invariant forall q, p :: 0 <= q < N && 0 <= p < N && q != o ==>
          comb[q, p] == if q < o then ProductEntry(mn[q], mp, p, N) else 0.0
        modifies comb
      {
        AddChannel(comb, prev, o, n, next[o, n], mn[o], mp);
      }
    }
    forall q | 0 <= q < N
      ensures HoldsRow(comb, q, Product(mn, mp)[q])
    {
      assert forall p :: 0 <= p < N ==> comb[q, p] == ProductRow(mn[q], mp)[p];
    }
    NormalizeMapping(comb, Product(mn, mp));
    CopyBuffer(prev, comb, Combine(mp, mn));
  }

  /** fill_mapping_from_table_: rules, normalization, selection of channels, normalization. */
  method FillFromTable(result: array2<real>, t: Table, down: bool, ins: set<nat>, outs: set<nat>)
    requires GoodTable(t) && Square(result) && Holds(result, Zero())
    modifies result
    ensures Holds(result, Fill(t, down, ins, outs))
  {
    hide Normalize;
    var temp := RuleBuffer(t);
    ghost var m := ApplyRules(Zero(), t.rules);
    NormalizeMapping(temp, m);
    ghost var a := Normalize(m);
    assert forall o :: 0 <= o < N ==> HoldsRow(temp, o, a[o]);
    HoldsZero(result);
    ghost var b := Restrict(a, down, ins, outs);
    for o := 0 to N
      invariant forall q, i :: 0 <= q < N && 0 <= i < N ==> result[q, i] == if q < o then b[q][i] else 0.0
      modifies result
    {
      for i := 0 to N
        invariant forall q, j :: 0 <= q < N && 0 <= j < N ==>
          result[q, j] == if q < o || (q == o && j < i) then b[q][j] else 0.0
        modifies result
      {
        if o in outs && i in ins {
          result[o, i] := if down then temp[o, i] else temp[i, o];
        }
      }
    }
    assert forall q :: 0 <= q < N ==> HoldsRow(result, q, b[q]);
    NormalizeMapping(result, b);
  }

  /** The raw coefficients of a table. */
  method RuleBuffer(t: Table) returns (temp: array2<real>)
    requires GoodTable(t)
    ensures fresh(temp) && Square(temp) && Holds(temp, ApplyRules(Zero(), t.rules))
  {
    temp := ZeroBuffer();
    ghost var m := Zero();
    var n := 0;
    while n < |t.rules|
      invariant 0 <= n <= |t.rules|
      invariant Holds(temp, m)
      invariant ApplyRules(m, t.rules[n..]) == ApplyRules(Zero(), t.rules)
      modifies temp
    {
      var rule := t.rules[n];
      assert t.rules[n..][0] == rule && t.rules[n..][1..] == t.rules[n + 1..];
      if rule.coeff == 0.0 {
        return;
      }
      ghost var m' := SetEntry(m, rule.outCh, rule.inCh, rule.coeff);
      assert forall o :: 0 <= o < N ==> HoldsRow(temp, o, m[o]);
      temp[rule.outCh, rule.inCh] := rule.coeff;
      assert forall o :: 0 <= o < N ==> HoldsRow(temp, o, m'[o]);
      m := m';
      n := n + 1;
    }
  }

  /** fill_fallback_mapping_ */
  method FillFallback(result: array2<real>)
    requires Square(result) && Holds(result, Zero())
    modifies result
    ensures Holds(result, Identity())
  {
    HoldsZero(result);
    for ch := 0 to N
      invariant forall o, i :: 0 <= o < N && 0 <= i < N ==> result[o, i] == if o == i < ch then 1.0 else 0.0
    {
      result[ch, ch] := 1.0;
    }
    assert forall o :: 0 <= o < N ==> HoldsRow(result, o, Identity()[o]);
  }

  // ---------------------------------------------------------------- table search

  method FindCanDownmix(tables: seq<Table>, cur: set<nat>, out: set<nat>) returns (r: bool)
    ensures r == CanDownmix(tables, cur, out)
  {
    var i := 0;
    while i < |tables|
      invariant 0 <= i <= |tables|
      invariant CanDownmix(tables, cur, out) == CanDownmix(tables, cur, out, i)
    {
      var mask := tables[i].inMask;
      if cur <= mask {
        var j := i;
        while j < |tables|
          invariant i <= j <= |tables|
          invariant CanDownmix(tables, cur, out) == ClusterCovers(tables, mask, out, j)
        {
          if tables[j].inMask != mask {
            return false;
          }
          if out <= tables[j].outMask {
            return true;
          }
          j := j + 1;
        }
        return false;
      }
      i := i + 1;
    }
    return false;
  }

  method FindNextDownmix(tables: seq<Table>, cur: set<nat>, out: set<nat>) returns (r: Option<nat>)
    ensures r == NextDownmix(tables, cur, out)
  {
    var n := 0;
    while n < |tables|
      invariant 0 <= n <= |tables|
      invariant NextDownmix(tables, cur, out) == NextDownmix(tables, cur, out, n)
    {
      if cur <= tables[n].inMask && out <= tables[n].outMask && !(cur <= tables[n].outMask) {
        return Some(n);
      }
      n := n + 1;
    }
    return None;
  }

  /** Walking the list backwards and keeping the last match finds the first fitting table. */
  method FindBestUpmix(tables: seq<Table>, cur: set<nat>, next: set<nat>) returns (best: Option<nat>)
    ensures best == BestUpmix(tables, cur, next)
  {
    best := None;
    var n := |tables|;
    while n > 0
      invariant 0 <= n <= |tables|
      invariant best == NextDownmix(tables, next, cur, n)
    {
      n := n - 1;
      if cur <= tables[n].outMask && next <= tables[n].inMask && !(next <= tables[n].outMask) {
        best := Some(n);
      }
    }
  }

  /** next_upmix_table_, watched for a number of rounds: it has not ended if they were too few. */
  method FindNextUpmix(tables: seq<Table>, cur: set<nat>, out: set<nat>, rounds: nat) returns (ended: bool, found: Option<nat>)
    ensures UpmixSearch(tables, cur, out, None, rounds) == if ended then Ended(found) else Going
  {
    found := None;
    var next := out;
    var left := rounds;
    while left > 0
      invariant found.Some? ==> found.value < |tables| && cur <= tables[found.value].outMask
      invariant UpmixSearch(tables, cur, out, None, rounds) == UpmixSearch(tables, cur, next, found, left)
    {
      var best := FindBestUpmix(tables, cur, next);
      if best.None? {
        return true, found;
      }
      found := best;
      next := tables[best.value].outMask;
      left := left - 1;
    }
    ended := false;
  }

  /** One selection of a table; none if there is none or the walk for it has not ended. */
  method FindTable(tables: seq<Table>, cur: set<nat>, outs: set<nat>, rounds: nat)
    returns (ended: bool, down: bool, t: Option<nat>)
    ensures NextMove(tables, cur, outs, rounds) ==
            if !ended then Hang else if t.None? then Stop else if down then Down(t.value) else Up(t.value)
  {
    ended := true;
    down := FindCanDownmix(tables, cur, outs);
    if down {
      t := FindNextDownmix(tables, cur, outs);
    } else {
      ended, t := FindNextUpmix(tables, cur, outs, rounds);
    }
  }

  /**
   * build_channel_mapping_, watched for a number of moves. If it was seen to end, the result is the
   * outcome of the search, whatever the numbers.
   */
  method BuildChannelMapping(tables: seq<Table>, ins: set<nat>, outs: set<nat>, rounds: nat, limit: nat)
    returns (ended: bool, found: bool, result: array2<real>)
    requires GoodTables(tables)
    ensures fresh(result) && Square(result)
    ensures ended <==> FindMapping(tables, ins, outs, rounds, limit).Mapped?
    ensures ended ==>
              var r := FindMapping(tables, ins, outs, rounds, limit).mapping;
              (found <==> r.Some?) && Holds(result, if found then r.value else Zero())
    ensures ended && ins != outs ==> FindMapping(tables, ins, outs, rounds, limit) == Search(tables, ins, outs)
  {
    result := ZeroBuffer();
    if ins == outs {
      return true, false, result;
    }
    hide Fill, Combine, NextMove, Search;
    found := false;
    var cur := ins;
    ghost var m := Zero();
    var left := limit;
    while left > 0
      invariant Holds(result, m) && (!found ==> m == Zero())
      invariant Mapping(tables, None, ins, outs, rounds, limit)
             == Mapping(tables, if found then Some(m) else None, cur, outs, rounds, left)
      modifies result
    {
      var done, down, t := FindTable(tables, cur, outs, rounds);
      if !done {
        return false, found, result;
      }
      if t.None? {
        SearchSettles(tables, ins, outs, rounds, limit);
        return true, found, result;
      }
      var table := tables[t.value];
      var actual := if down then table.outMask else table.inMask;
      ghost var f := Fill(table, down, cur, actual);
      if !found {
        FillFromTable(result, table, down, cur, actual);
        m := f;
      } else {
        var next := ZeroBuffer();
        FillFromTable(next, table, down, cur, actual);
        CombineMappings(result, next, m, f);
        m := Combine(m, f);
      }
      found := true;
      cur := actual;
      left := left - 1;
    }
    ended := false;
  }

  // ---------------------------------------------------------------- index maps

  /** Where the channels of a set are placed in a frame, and back. */
  method BuildIndexMapping(order: seq<nat>, chans: set<nat>)
    returns (enabled: set<nat>, chan2Index: array<nat>, index2Chan: array<nat>)
    requires IsOrder(order)
    ensures fresh(chan2Index) && fresh(index2Chan) && chan2Index.Length == index2Chan.Length == N
    ensures var phys := Physical(order, chans);
            && |phys| <= N && enabled == Elems(phys)
            && (forall i :: 0 <= i < |phys| ==> phys[i] < N && index2Chan[i] == phys[i] && chan2Index[phys[i]] == i)
            && (forall i :: |phys| <= i < N ==> index2Chan[i] == N)
  {
    enabled := {};
    chan2Index := new nat[N](_ => 0);
    index2Chan := new nat[N](_ => 0);
    PhysicalFacts(order, chans);
    DistinctShort(order, N);
    var index := 0;
    var n := 0;
    while n < |order|
      invariant 0 <= n <= |order|
      invariant var phys := Physical(order[..n], chans);
                && index == |phys| <= n && enabled == Elems(phys) && Distinct(phys)
                && (forall i :: 0 <= i < |phys| ==>
                      phys[i] < N && phys[i] in order[..n] && index2Chan[i] == phys[i] && chan2Index[phys[i]] == i)
    {
      var ch := order[n];
      assert order[..n + 1][..n] == order[..n];
      assert ch !in order[..n];
      if ch in chans {
        enabled := enabled + {ch};
        chan2Index[ch] := index;
        index2Chan[index] := ch;
        index := index + 1;
      }
      n := n + 1;
    }
    assert order[..|order|] == order;
    ghost var phys := Physical(order, chans);
    while index < N
      invariant |phys| <= index <= N
      invariant forall i :: 0 <= i < |phys| ==> phys[i] < N && index2Chan[i] == phys[i] && chan2Index[phys[i]] == i
      invariant forall i :: |phys| <= i < index ==> index2Chan[i] == N
    {
      index2Chan[index] := N;
      index := index + 1;
    }
  }

  /** populate_index_matrix_: channel coefficients go to the places of the channels in the frames. */
  method PopulateIndexMatrix(index: array2<real>, chan: array2<real>,
                             inEnabled: set<nat>, inIndex: array<nat>, outEnabled: set<nat>, outIndex: array<nat>,
                             ghost m: Matrix, ghost ins: seq<nat>, ghost outs: seq<nat>)
    requires Square(index) && Square(chan) && index != chan && Holds(index, Zero()) && Holds(chan, m)
    requires inIndex.Length == outIndex.Length == N && |ins| <= N && |outs| <= N
    requires inEnabled == Elems(ins) && outEnabled == Elems(outs)
    requires forall i :: 0 <= i < |ins| ==> ins[i] < N && inIndex[ins[i]] == i
    requires forall i :: 0 <= i < |outs| ==> outs[i] < N && outIndex[outs[i]] == i
    modifies index
    ensures Holds(index, IndexMatrix(m, ins, outs))
  {
    HoldsZero(index);
    for o := 0 to N
      invariant forall a, b :: 0 <= a < N && 0 <= b < N ==>
        index[a, b] == if a < |outs| && b < |ins| && outs[a] < o then m[outs[a]][ins[b]] else 0.0
      modifies index
    {
      if o in outEnabled {
        for i := 0 to N
          invariant forall a, b :: 0 <= a < N && 0 <= b < N ==>
            index[a, b] == if a < |outs| && b < |ins| && (outs[a] < o || (outs[a] == o && ins[b] < i))
                           then m[outs[a]][ins[b]] else 0.0
          modifies index
        {
          if i in inEnabled {
            assert HoldsRow(chan, o, m[o]);
            index[outIndex[o], inIndex[i]] := chan[o, i];
          }
        }
      }
    }
    assert forall a :: 0 <= a < N ==> HoldsRow(index, a, IndexMatrix(m, ins, outs)[a]);
  }

  class ChannelMapperMatrix {
    const indexMatrix: array2<real>

    constructor ()
      ensures fresh(indexMatrix) && Square(indexMatrix) && Holds(indexMatrix, Zero())
    {
      indexMatrix := new real[N, N]((_, _) => 0.0);
    }

    /**
     * Builds the matrix from the tables, the two orders and the two channel sets, if the search is
     * seen to end; the matrix is then the same for all numbers of rounds and moves.
     */
    method BuildMatrix(tables: seq<Table>, inOrder: seq<nat>, inChans: set<nat>, outOrder: seq<nat>, outChans: set<nat>,
                       rounds: nat, limit: nat) returns (ended: bool)
      requires GoodTables(tables) && IsOrder(inOrder) && IsOrder(outOrder)
      requires Square(indexMatrix) && Holds(indexMatrix, Zero())
      modifies indexMatrix
      ensures var ins, outs := Physical(inOrder, inChans), Physical(outOrder, outChans);
              && (forall i :: 0 <= i < |ins| ==> ins[i] < N)
              && (forall i :: 0 <= i < |outs| ==> outs[i] < N)
              && (ended <==> Build(tables, ins, outs, rounds, limit).Some?)
              && (ended ==>
                    var m := Build(tables, ins, outs, Rounds(tables), Limit(tables));
                    m.Some? && Holds(indexMatrix, m.value) && WeightMatrix(m.value))
    {
      hide Mapping, Physical, IndexMatrix;
      ghost var ins, outs := Physical(inOrder, inChans), Physical(outOrder, outChans);
      PhysicalFacts(inOrder, inChans);
      var inEnabled, inIndex, inBack := BuildIndexMapping(inOrder, inChans);
      var outEnabled, outIndex, outBack := BuildIndexMapping(outOrder, outChans);
      var found, chan;
      ended, found, chan := BuildChannelMapping(tables, inEnabled, outEnabled, rounds, limit);
      if !ended {
        return;
      }
      ghost var r := FindMapping(tables, Elems(ins), Elems(outs), rounds, limit).mapping;
      if !found {
        FillFallback(chan);
      }
      PopulateIndexMatrix(indexMatrix, chan, inEnabled, inIndex, outEnabled, outIndex,
                          if r.Some? then r.value else Identity(), ins, outs);
      BuildWeights(tables, ins, outs, rounds, limit);
      BuildSettles(tables, ins, outs, rounds, limit);
    }
  }
}
