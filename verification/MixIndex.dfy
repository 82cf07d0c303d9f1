/**
 * From logical channel positions to positions in a frame: index maps, the final matrix, and
 * what mapping a frame with it does.
 */
module MixIndex {
  import opened Arith
  import opened Finite
  import opened MixMatrix
  import opened MixSearch
  import opened Options
  import opened SearchBounds

  /** A channel order table: distinct channel positions. */
  ghost predicate IsOrder(order: seq<nat>) {
    && (forall i :: 0 <= i < |order| ==> order[i] < N)
    && Distinct(order)
  }

  /** build_index_mapping_: the channels of a set, in the order of the table (index_2_chan). */
  function Physical(order: seq<nat>, chans: set<nat>): seq<nat> {
    if order == [] then []
    else
      var head := Physical(order[..|order| - 1], chans);
      var ch := order[|order| - 1];
      if ch in chans then head + [ch] else head
  }

  lemma {:induction false} PhysicalFacts(order: seq<nat>, chans: set<nat>)
    requires IsOrder(order)
    ensures Distinct(Physical(order, chans))
    ensures forall c :: c in Physical(order, chans) <==> c in order && c in chans
    ensures |Physical(order, chans)| <= |order|
  {
    if order != [] {
      var head := order[..|order| - 1];
      PhysicalFacts(head, chans);
      assert order == head + [order[|order| - 1]];
      assert order[|order| - 1] !in head;
    }
  }

  // ---------------------------------------------------------------- the final matrix

  function IndexRow(m: Matrix, ins: seq<nat>, outs: seq<nat>, o: nat): Row
    requires o < N
    requires forall i :: 0 <= i < |ins| ==> ins[i] < N
    requires forall i :: 0 <= i < |outs| ==> outs[i] < N
  {
    seq(N, i requires 0 <= i < N => if o < |outs| && i < |ins| then m[outs[o]][ins[i]] else 0.0)
  }

  /** populate_index_matrix_: coefficients by position in the frame. */
  function IndexMatrix(m: Matrix, ins: seq<nat>, outs: seq<nat>): Matrix
    requires forall i :: 0 <= i < |ins| ==> ins[i] < N
    requires forall i :: 0 <= i < |outs| ==> outs[i] < N
  {
    seq(N, o requires 0 <= o < N => IndexRow(m, ins, outs, o))
  }

  /** Sum of the entries of a row picked by an index list. */
  function PickSum(r: Row, ins: seq<nat>, k: nat): real
    requires k <= |ins| && forall i :: 0 <= i < |ins| ==> ins[i] < N
  {
    if k == 0 then 0.0 else PickSum(r, ins, k - 1) + r[ins[k - 1]]
  }

  lemma {:induction false} SumWithout(r: Row, c: nat, k: nat)
    requires c < N && k <= N
    ensures Sum(r, k) == Sum(r[c := 0.0], k) + if c < k then r[c] else 0.0
  {
    if k > 0 {
      SumWithout(r, c, k - 1);
    }
  }

  lemma {:induction false} PickWithout(r: Row, ins: seq<nat>, c: nat, k: nat)
    requires k <= |ins| && c < N && forall i :: 0 <= i < |ins| ==> ins[i] < N
    requires forall i :: 0 <= i < k ==> ins[i] != c
    ensures PickSum(r, ins, k) == PickSum(r[c := 0.0], ins, k)
  {
    if k > 0 {
      PickWithout(r, ins, c, k - 1);
    }
  }

  /** If the list names every non-zero entry once, picking loses nothing. */
  lemma {:induction false} PickAll(r: Row, ins: seq<nat>, k: nat)
    requires k <= |ins| && Distinct(ins) && forall i :: 0 <= i < |ins| ==> ins[i] < N
    requires forall c :: 0 <= c < N && c !in ins[..k] ==> r[c] == 0.0
    ensures PickSum(r, ins, k) == Sum(r, N)
    decreases k
  {
    if k == 0 {
      AllZeroSum(r, N);
    } else {
      var c := ins[k - 1];
      var r' := r[c := 0.0];
      assert ins[..k] == ins[..k - 1] + [c];
      PickAll(r', ins, k - 1);
      SumWithout(r, c, N);
      PickWithout(r, ins, c, k - 1);
    }
  }

  lemma {:induction false} AllZeroSum(r: Row, k: nat)
    requires k <= N && forall i :: 0 <= i < k ==> r[i] == 0.0
    ensures Sum(r, k) == 0.0
  {
    if k > 0 {
      AllZeroSum(r, k - 1);
    }
  }

  lemma {:induction false} IndexRowSum(m: Matrix, ins: seq<nat>, outs: seq<nat>, o: nat, k: nat)
    requires o < |outs| && o < N && k <= N
    requires forall i :: 0 <= i < |ins| ==> ins[i] < N
    requires forall i :: 0 <= i < |outs| ==> outs[i] < N
    ensures var n := if k < |ins| then k else |ins|;
            Sum(IndexRow(m, ins, outs, o), k) == PickSum(m[outs[o]], ins, n)
  {
    if k > 0 {
      IndexRowSum(m, ins, outs, o, k - 1);
    }
  }

  /** Reordering keeps weights, provided every contributing input channel has a place in the frame. */
  lemma {:induction false} IndexWeights(m: Matrix, ins: seq<nat>, outs: seq<nat>)
    requires Distinct(ins) && forall i :: 0 <= i < |ins| ==> ins[i] < N
    requires forall i :: 0 <= i < |outs| ==> outs[i] < N
    requires WeightMatrix(m)
    requires forall o, c :: 0 <= o < |outs| && 0 <= c < N && c !in ins ==> m[outs[o]][c] == 0.0
    ensures WeightMatrix(IndexMatrix(m, ins, outs))
  {
    DistinctShort(ins, N);
    forall o | 0 <= o < N
      ensures Weights(IndexMatrix(m, ins, outs)[o])
    {
      if o < |outs| {
        var row := m[outs[o]];
        assert Weights(row);
        assert ins[..|ins|] == ins;
        PickAll(row, ins, |ins|);
        IndexRowSum(m, ins, outs, o, N);
      }
    }
  }

  // ---------------------------------------------------------------- the whole matrix

  function UnitRow(o: nat): Row { seq(N, i => if i == o then 1.0 else 0.0) }

  /** fill_fallback_mapping_: every channel is mapped to itself. */
  function Identity(): Matrix { seq(N, o requires 0 <= o < N => UnitRow(o)) }

  /** Rows of the identity, without the columns that have no place in the input frame. */
  function PartialIdentity(ins: seq<nat>): Matrix {
    seq(N, o requires 0 <= o < N => if o in ins then UnitRow(o) else ZeroRow())
  }

  lemma {:induction false} UnitRowWeights(o: nat)
    requires o < N
    ensures Weights(UnitRow(o)) && Weights(ZeroRow())
  {
    UnitSum(o, N);
  }

  lemma {:induction false} UnitSum(o: nat, k: nat)
    requires k <= N
    ensures Sum(UnitRow(o), k) == if o < k then 1.0 else 0.0
  {
    if k > 0 {
      UnitSum(o, k - 1);
    }
  }

  /** build_channel_mapping_: no search for equal sets. */
  function FindMapping(tables: seq<Table>, ins: set<nat>, outs: set<nat>, rounds: nat, k: nat): Outcome
    requires GoodTables(tables)
  {
    if ins == outs then Mapped(None) else Mapping(tables, None, ins, outs, rounds, k)
  }

  /** build(): the matrix for two channel sets with their orders, if the search was seen to end. */
  function Build(tables: seq<Table>, ins: seq<nat>, outs: seq<nat>, rounds: nat, k: nat): Option<Matrix>
    requires GoodTables(tables)
    requires forall i :: 0 <= i < |ins| ==> ins[i] < N
    requires forall i :: 0 <= i < |outs| ==> outs[i] < N
  {
    match FindMapping(tables, Elems(ins), Elems(outs), rounds, k)
    case Unfinished => None
    case Mapped(found) => Some(IndexMatrix(if found.Some? then found.value else Identity(), ins, outs))
  }

  /** The matrix does not depend on how long the search was watched. */
  lemma {:induction false} BuildSettles(tables: seq<Table>, ins: seq<nat>, outs: seq<nat>, rounds: nat, k: nat)
    requires GoodTables(tables)
    requires forall i :: 0 <= i < |ins| ==> ins[i] < N
    requires forall i :: 0 <= i < |outs| ==> outs[i] < N
    requires Build(tables, ins, outs, rounds, k).Some?
    ensures Build(tables, ins, outs, rounds, k) == Build(tables, ins, outs, Rounds(tables), Limit(tables))
  {
    hide Mapping, IndexMatrix;
    if Elems(ins) != Elems(outs) {
      SearchSettles(tables, Elems(ins), Elems(outs), rounds, k);
    }
  }

  /**
   * For any tables with non-negative coefficients, any channel sets and orders, and however many
   * tables are combined: every row of the final matrix is non-negative and is all zero or sums to 1.
   */
  lemma {:induction false} BuildWeights(tables: seq<Table>, ins: seq<nat>, outs: seq<nat>, rounds: nat, k: nat)
    requires GoodTables(tables)
    requires Distinct(ins) && forall i :: 0 <= i < |ins| ==> ins[i] < N
    requires forall i :: 0 <= i < |outs| ==> outs[i] < N
    ensures var m := Build(tables, ins, outs, rounds, k); m.Some? ==> WeightMatrix(m.value)
  {
    hide Mapping;
    var r := FindMapping(tables, Elems(ins), Elems(outs), rounds, k);
    if r.Mapped? && r.mapping.Some? {
      MappingWeights(tables, None, Elems(ins), Elems(ins), Elems(outs), rounds, k);
      IndexWeights(r.mapping.value, ins, outs);
    } else {
      FallbackWeights(ins, outs);
    }
  }

  lemma {:induction false} FallbackWeights(ins: seq<nat>, outs: seq<nat>)
    requires Distinct(ins) && forall i :: 0 <= i < |ins| ==> ins[i] < N
    requires forall i :: 0 <= i < |outs| ==> outs[i] < N
    ensures WeightMatrix(IndexMatrix(Identity(), ins, outs))
  {
    var m := PartialIdentity(ins);
    forall o | 0 <= o < N
      ensures Weights(m[o])
    {
      UnitRowWeights(o);
    }
    forall o | 0 <= o < N
      ensures IndexRow(Identity(), ins, outs, o) == IndexRow(m, ins, outs, o)
    {
      forall i | 0 <= i < |ins| && o < |outs|
        ensures Identity()[outs[o]][ins[i]] == m[outs[o]][ins[i]]
      {
        assert ins[i] in ins;
      }
    }
    assert IndexMatrix(Identity(), ins, outs) == IndexMatrix(m, ins, outs);
    IndexWeights(m, ins, outs);
  }

  // ---------------------------------------------------------------- mapping frames

  const SAMPLE_MIN: real := -1.0
  const SAMPLE_MAX: real := 1.0

  predicate InRange(frame: seq<real>) { forall i :: 0 <= i < |frame| ==> SAMPLE_MIN <= frame[i] <= SAMPLE_MAX }

  /** Weighted sum of the first k samples of a frame. */
  function Dot(row: Row, frame: seq<real>, k: nat): real
    requires k <= |frame| && k <= N
  {
    if k == 0 then 0.0 else Dot(row, frame, k - 1) + Times(frame[k - 1], row[k - 1])
  }

  function Clamp(x: real): real {
    var y := if x < SAMPLE_MAX then x else SAMPLE_MAX;
    if y > SAMPLE_MIN then y else SAMPLE_MIN
  }

  /** One frame through map_surround_surround_. */
  function MapFrame(m: Matrix, frame: seq<real>, outs: nat): seq<real>
    requires |frame| <= N && outs <= N
  {
    seq(outs, o requires 0 <= o < outs => Clamp(Dot(m[o], frame, |frame|)))
  }

  lemma {:induction false} DotBound(row: Row, frame: seq<real>, k: nat)
    requires k <= |frame| && k <= N && NonNegative(row) && InRange(frame)
    ensures -Sum(row, k) <= Dot(row, frame, k) <= Sum(row, k)
  {
    hide Times;
    if k > 0 {
      DotBound(row, frame, k - 1);
      ProductBound(frame[k - 1], row[k - 1]);
    }
  }

  lemma {:induction false} ProductBound(x: real, w: real)
    requires -1.0 <= x <= 1.0 && w >= 0.0
    ensures -w <= Times(x, w) <= w
  {
    ProductNonNegative(1.0 - x, w);
    ProductNonNegative(1.0 + x, w);
    assert (1.0 - x) * w == w - x * w && (1.0 + x) * w == w + x * w;
  }

  lemma {:induction false} ProductNonNegative(a: real, b: real)
    requires a >= 0.0 && b >= 0.0
    ensures a * b >= 0.0
  {
  }

  lemma {:induction false} SumMonotone(row: Row, a: nat, b: nat)
    requires a <= b <= N && NonNegative(row)
    ensures Sum(row, a) <= Sum(row, b)
  {
    if a < b {
      SumMonotone(row, a, b - 1);
    }
  }

  /** Clamping never changes a value that weights produce from samples in range. */
  lemma {:induction false} ClampIsIdle(m: Matrix, frame: seq<real>, o: nat)
    requires WeightMatrix(m) && InRange(frame) && |frame| <= N && o < N
    ensures var x := Dot(m[o], frame, |frame|);
            Clamp(x) == x && SAMPLE_MIN <= x <= SAMPLE_MAX
  {
    assert Weights(m[o]);
    SumNonNegative(m[o], N);
    SumMonotone(m[o], |frame|, N);
    DotBound(m[o], frame, |frame|);
  }

  // ---------------------------------------------------------------- reordering only

  lemma {:induction false} DotPicks(ins: seq<nat>, outs: seq<nat>, frame: seq<real>, o: nat, t: nat, k: nat)
    requires Distinct(ins) && |ins| == |frame| <= N && forall i :: 0 <= i < |ins| ==> ins[i] < N
    requires forall i :: 0 <= i < |outs| ==> outs[i] < N
    requires o < |outs| && o < N && t < |ins| && ins[t] == outs[o] && k <= |frame|
    ensures Dot(IndexMatrix(Identity(), ins, outs)[o], frame, k) == if t < k then frame[t] else 0.0
  {
    if k > 0 {
      DotPicks(ins, outs, frame, o, t, k - 1);
      assert IndexMatrix(Identity(), ins, outs)[o][k - 1] == if ins[k - 1] == outs[o] then 1.0 else 0.0;
    }
  }

  /** With equal channels, mapping moves each sample to the place of its channel in the other order. */
  lemma {:induction false} ReorderMoves(ins: seq<nat>, outs: seq<nat>, frame: seq<real>, o: nat, t: nat)
    requires Distinct(ins) && |ins| == |frame| && forall i :: 0 <= i < |ins| ==> ins[i] < N
    requires |outs| <= N && forall i :: 0 <= i < |outs| ==> outs[i] < N
    requires InRange(frame) && o < |outs| && t < |ins| && ins[t] == outs[o]
    ensures |ins| <= N
    ensures MapFrame(IndexMatrix(Identity(), ins, outs), frame, |outs|)[o] == frame[t]
  {
    DistinctShort(ins, N);
    DotPicks(ins, outs, frame, o, t, |frame|);
  }

  /**
   * Two channel sets with the same channels, all supported by both orders: the built matrix only
   * reorders, and mapping to the other order and back returns every frame in range unchanged.
   */
  lemma {:induction false} ReorderRoundTrip(
    tables: seq<Table>, a: seq<nat>, b: seq<nat>, frame: seq<real>, rounds: nat, k: nat)
    requires GoodTables(tables)
    requires Distinct(a) && Distinct(b) && Elems(a) == Elems(b)
    requires forall i :: 0 <= i < |a| ==> a[i] < N
    requires forall i :: 0 <= i < |b| ==> b[i] < N
    requires |frame| == |a| && InRange(frame)
    ensures |a| == |b| <= N
    ensures var go, back := Build(tables, a, b, rounds, k), Build(tables, b, a, rounds, k);
            go.Some? && back.Some? && MapFrame(back.value, MapFrame(go.value, frame, |b|), |a|) == frame
  {
    ElemsSize(a);
    ElemsSize(b);
    DistinctShort(a, N);
    var m, m' := IndexMatrix(Identity(), a, b), IndexMatrix(Identity(), b, a);
    var there := MapFrame(m, frame, |b|);
    forall o | 0 <= o < |b|
      ensures SAMPLE_MIN <= there[o] <= SAMPLE_MAX
    {
      assert b[o] in Elems(a);
      var t :| 0 <= t < |a| && a[t] == b[o];
      ReorderMoves(a, b, frame, o, t);
    }
    var back := MapFrame(m', there, |a|);
    forall t | 0 <= t < |a|
      ensures back[t] == frame[t]
    {
      assert a[t] in Elems(b);
      var o :| 0 <= o < |b| && b[o] == a[t];
      ReorderMoves(a, b, frame, o, t);
      ReorderMoves(b, a, there, t, o);
    }
  }
}
