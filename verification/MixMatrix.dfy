/**
 * Channel mapping matrices as values: rows of non-negative coefficients that are all zero or
 * sum to one, and the operations that keep them so.
 */
module MixMatrix {

  /** Number of surround channel positions (ChanPos_Max). */
  const N: nat := 17

  type Row = r: seq<real> | |r| == 17 witness seq(17, i => 0.0)
  type Matrix = m: seq<Row> | |m| == 17 witness seq(17, i => ZeroRow())

  function ZeroRow(): Row { seq(17, i => 0.0) }

  function Zero(): Matrix { seq(17, o => ZeroRow()) }

  /** r[0] + ... + r[k - 1] */
  function Sum(r: Row, k: nat): real
    requires k <= N
  {
    if k == 0 then 0.0 else Sum(r, k - 1) + r[k - 1]
  }

  predicate NonNegative(r: Row) { forall i :: 0 <= i < N ==> r[i] >= 0.0 }

  predicate AllZero(r: Row) { forall i :: 0 <= i < N ==> r[i] == 0.0 }

  /** A row of weights: a convex combination of the inputs, or silence. */
  predicate Weights(r: Row) { NonNegative(r) && (AllZero(r) || Sum(r, N) == 1.0) }

  predicate WeightMatrix(m: Matrix) { forall o :: 0 <= o < N ==> Weights(m[o]) }

  predicate NonNegativeMatrix(m: Matrix) { forall o :: 0 <= o < N ==> NonNegative(m[o]) }

  /** Only the given input channels contribute. */
  predicate UsesOnly(m: Matrix, ins: set<nat>) {
    forall o, i :: 0 <= o < N && 0 <= i < N && i !in ins ==> m[o][i] == 0.0
  }

  lemma {:induction false} SumNonNegative(r: Row, k: nat)
    requires NonNegative(r) && k <= N
    ensures Sum(r, k) >= 0.0
    ensures Sum(r, k) == 0.0 <==> forall i :: 0 <= i < k ==> r[i] == 0.0
  {
    if k > 0 {
      SumNonNegative(r, k - 1);
    }
  }

  /** normalize_mapping_ on one row */
  function NormalizeRow(r: Row): Row {
    var total := Sum(r, N);
    if total == 0.0 then r else seq(N, i requires 0 <= i < N => r[i] / total)
  }

  function Normalize(m: Matrix): Matrix { seq(N, o requires 0 <= o < N => NormalizeRow(m[o])) }

  lemma {:induction false} SumScaled(r: Row, s: Row, d: real, k: nat)
    requires d != 0.0 && k <= N
    requires forall i :: 0 <= i < N ==> s[i] == r[i] / d
    ensures Sum(s, k) == Sum(r, k) / d
  {
    if k > 0 {
      SumScaled(r, s, d, k - 1);
      assert Sum(r, k) / d == Sum(r, k - 1) / d + r[k - 1] / d;
    }
  }

  lemma {:induction false} NormalizeRowWeights(r: Row)
    requires NonNegative(r)
    ensures Weights(NormalizeRow(r))
    ensures forall i :: 0 <= i < N ==> (NormalizeRow(r)[i] == 0.0 <==> r[i] == 0.0)
  {
    var total := Sum(r, N);
    SumNonNegative(r, N);
    if total != 0.0 {
      SumScaled(r, NormalizeRow(r), total, N);
      assert Sum(NormalizeRow(r), N) == total / total == 1.0;
      forall i | 0 <= i < N
        ensures r[i] / total >= 0.0 && (r[i] / total == 0.0 <==> r[i] == 0.0)
      {
        Quotient(r[i], total);
      }
    }
  }

  lemma {:induction false} Quotient(x: real, d: real)
    requires x >= 0.0 && d > 0.0
    ensures x / d >= 0.0 && (x / d == 0.0 <==> x == 0.0)
  {
    assert (x / d) * d == x;
  }

  /** Normalizing non-negative coefficients gives weights and adds no input channel. */
  lemma {:induction false} NormalizeWeights(m: Matrix, ins: set<nat>)
    requires NonNegativeMatrix(m)
    ensures WeightMatrix(Normalize(m))
    ensures UsesOnly(m, ins) ==> UsesOnly(Normalize(m), ins)
  {
    forall o | 0 <= o < N
      ensures Weights(Normalize(m)[o])
      ensures forall i :: 0 <= i < N ==> (Normalize(m)[o][i] == 0.0 <==> m[o][i] == 0.0)
    {
      NormalizeRowWeights(m[o]);
    }
  }

  /** Row of the product: sum over the intermediate channels below k. */
  function ProductEntry(row: Row, prev: Matrix, p: nat, k: nat): real
    requires p < N && k <= N
  {
    if k == 0 then 0.0 else ProductEntry(row, prev, p, k - 1) + row[k - 1] * prev[k - 1][p]
  }

  function ProductRow(row: Row, prev: Matrix): Row {
    seq(N, p requires 0 <= p < N => ProductEntry(row, prev, p, N))
  }

  function Product(next: Matrix, prev: Matrix): Matrix {
    seq(N, o requires 0 <= o < N => ProductRow(next[o], prev))
  }

  lemma {:induction false} ProductEntryFacts(row: Row, prev: Matrix, p: nat, k: nat)
    requires p < N && k <= N && NonNegative(row) && NonNegativeMatrix(prev)
    ensures ProductEntry(row, prev, p, k) >= 0.0
    ensures (forall n :: 0 <= n < N ==> prev[n][p] == 0.0) ==> ProductEntry(row, prev, p, k) == 0.0
  {
    if k > 0 {
      ProductEntryFacts(row, prev, p, k - 1);
      assert row[k - 1] >= 0.0 && prev[k - 1][p] >= 0.0;
    }
  }

  /** combine_mappings_: first prev, then next. */
  function Combine(prev: Matrix, next: Matrix): Matrix { Normalize(Product(next, prev)) }

  lemma {:induction false} CombineWeights(prev: Matrix, next: Matrix, ins: set<nat>)
    requires NonNegativeMatrix(prev) && NonNegativeMatrix(next)
    ensures WeightMatrix(Combine(prev, next))
    ensures UsesOnly(prev, ins) ==> UsesOnly(Combine(prev, next), ins)
  {
    var m := Product(next, prev);
    forall o | 0 <= o < N
      ensures NonNegative(m[o])
    {
      forall p | 0 <= p < N
        ensures m[o][p] >= 0.0
      {
        ProductEntryFacts(next[o], prev, p, N);
      }
    }
    if UsesOnly(prev, ins) {
      forall o, p | 0 <= o < N && 0 <= p < N && p !in ins
        ensures m[o][p] == 0.0
      {
        ProductEntryFacts(next[o], prev, p, N);
      }
    }
    NormalizeWeights(m, ins);
  }
}
