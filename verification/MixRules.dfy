/**
 * Which coefficient lands where: the matrices of the search in terms of the rules of its tables.
 */
module MixRules {
  import opened Arith
  import opened Finite
  import opened MixIndex
  import opened MixMatrix
  import opened MixSearch
  import opened Options
  import opened ShippedTables

  /** The rules in force: those before the first zero coefficient. */
  function InForce(rules: seq<Rule>): (r: seq<Rule>)
    ensures |r| <= |rules| && r == rules[..|r|]
    ensures forall k :: 0 <= k < |r| ==> r[k].coeff != 0.0
    ensures |r| < |rules| ==> rules[|r|].coeff == 0.0
  {
    if rules == [] || rules[0].coeff == 0.0 then []
    else
      var rest := InForce(rules[1..]);
      assert rules[..|rest| + 1] == [rules[0]] + rules[1..][..|rest|];
      [rules[0]] + rest
  }

  /** Some rule in force takes input i to output o. */
  ghost predicate HasRule(t: Table, o: nat, i: nat) {
    exists k :: 0 <= k < |InForce(t.rules)| && InForce(t.rules)[k].outCh == o && InForce(t.rules)[k].inCh == i
  }

  /** The coefficient of the last of several rules for the same channels; zero without one. */
  function LastCoeff(rules: seq<Rule>, o: nat, i: nat): real {
    if rules == [] then 0.0
    else
      var r := rules[|rules| - 1];
      if r.outCh == o && r.inCh == i then r.coeff else LastCoeff(rules[..|rules| - 1], o, i)
  }

  function Coeff(t: Table, o: nat, i: nat): real { LastCoeff(InForce(t.rules), o, i) }

  lemma {:induction false} LastCoeffIff(rules: seq<Rule>, o: nat, i: nat)
    requires forall k :: 0 <= k < |rules| ==> rules[k].coeff > 0.0
    ensures LastCoeff(rules, o, i) >= 0.0
    ensures LastCoeff(rules, o, i) > 0.0 <==> exists k :: 0 <= k < |rules| && rules[k].outCh == o && rules[k].inCh == i
  {
    if rules != [] {
      var head := rules[..|rules| - 1];
      LastCoeffIff(head, o, i);
      assert forall k :: 0 <= k < |head| ==> head[k] == rules[k];
    }
  }

  lemma {:induction false} CoeffIff(t: Table, o: nat, i: nat)
    requires GoodTable(t)
    ensures Coeff(t, o, i) >= 0.0 && (Coeff(t, o, i) > 0.0 <==> HasRule(t, o, i))
  {
    hide InForce;
    LastCoeffIff(InForce(t.rules), o, i);
  }

  // ---------------------------------------------------------------- applying rules

  lemma {:induction false} ApplyLast(m: Matrix, rules: seq<Rule>, r: Rule)
    requires forall k :: 0 <= k < |rules| ==> rules[k].outCh < N && rules[k].inCh < N && rules[k].coeff != 0.0
    requires r.outCh < N && r.inCh < N && r.coeff != 0.0
    ensures ApplyRules(m, rules + [r]) == SetEntry(ApplyRules(m, rules), r.outCh, r.inCh, r.coeff)
    decreases |rules|
  {
    if rules == [] {
      assert rules + [r] == [r];
      assert [r][1..] == [];
    } else {
      assert (rules + [r])[1..] == rules[1..] + [r];
      ApplyLast(SetEntry(m, rules[0].outCh, rules[0].inCh, rules[0].coeff), rules[1..], r);
    }
  }

  lemma {:induction false} ApplyInForce(m: Matrix, rules: seq<Rule>)
    requires forall k :: 0 <= k < |rules| ==> rules[k].outCh < N && rules[k].inCh < N
    ensures ApplyRules(m, rules) == ApplyRules(m, InForce(rules))
    decreases |rules|
  {
    if rules != [] && rules[0].coeff != 0.0 {
      assert InForce(rules)[1..] == InForce(rules[1..]);
      ApplyInForce(SetEntry(m, rules[0].outCh, rules[0].inCh, rules[0].coeff), rules[1..]);
    }
  }

  lemma {:induction false} ApplyIs(rules: seq<Rule>, o: nat, i: nat)
    requires forall k :: 0 <= k < |rules| ==> rules[k].outCh < N && rules[k].inCh < N && rules[k].coeff != 0.0
    requires o < N && i < N
    ensures ApplyRules(Zero(), rules)[o][i] == LastCoeff(rules, o, i)
    decreases |rules|
  {
    if rules != [] {
      var head, r := rules[..|rules| - 1], rules[|rules| - 1];
      assert rules == head + [r];
      ApplyLast(Zero(), head, r);
      ApplyIs(head, o, i);
    }
  }

  /** The raw matrix of a table holds the coefficient of each pair of channels. */
  lemma {:induction false} RulesAre(t: Table, o: nat, i: nat)
    requires GoodTable(t) && o < N && i < N
    ensures ApplyRules(Zero(), t.rules)[o][i] == Coeff(t, o, i)
  {
    hide ApplyRules, InForce, LastCoeff;
    ApplyInForce(Zero(), t.rules);
    var r := InForce(t.rules);
    assert forall k :: 0 <= k < |r| ==> r[k] == t.rules[k];
    ApplyIs(r, o, i);
  }

  // ---------------------------------------------------------------- proportions

  /** Normalizing keeps signs and proportions. */
  lemma {:induction false} NormalizeKeeps(r: Row, i: nat, j: nat)
    requires NonNegative(r) && i < N && j < N
    ensures NormalizeRow(r)[i] > 0.0 <==> r[i] > 0.0
    ensures NormalizeRow(r)[i] >= 0.0
    ensures Times(NormalizeRow(r)[i], r[j]) == Times(NormalizeRow(r)[j], r[i])
  {
    hide Sum;
    SumNonNegative(r, N);
    var total := Sum(r, N);
    if total != 0.0 {
      Quotients(r[i], r[j], total);
    }
  }

  lemma {:induction false} Quotients(x: real, y: real, d: real)
    requires x >= 0.0 && d > 0.0
    ensures x / d >= 0.0 && (x / d > 0.0 <==> x > 0.0)
    ensures (x / d) * y == (y / d) * x
  {
    assert (x / d) * d == x && (y / d) * d == y;
    assert ((x / d) * y) == (x * y) / d == (y / d) * x;
  }

  /** The coefficients of an output channel. */
  function CoeffRow(t: Table, o: nat): Row { seq(N, i requires 0 <= i < N => Coeff(t, o, i)) }

  /** How much input i contributes to output o of a table, of all that contributes to it. */
  function Share(t: Table, o: nat, i: nat): real
    requires i < N
  {
    NormalizeRow(CoeffRow(t, o))[i]
  }

  lemma {:induction false} TableRow(t: Table, o: nat)
    requires GoodTable(t) && o < N
    ensures NonNegative(CoeffRow(t, o)) && ApplyRules(Zero(), t.rules)[o] == CoeffRow(t, o)
  {
    hide ApplyRules, Coeff;
    forall i | 0 <= i < N
      ensures ApplyRules(Zero(), t.rules)[o][i] == Coeff(t, o, i) >= 0.0
    {
      RulesAre(t, o, i);
      CoeffIff(t, o, i);
    }
  }

  /** A share is positive exactly for a rule, and shares stand in the ratio of the coefficients. */
  lemma {:induction false} ShareKeeps(t: Table, o: nat, i: nat, j: nat)
    requires GoodTable(t) && o < N && i < N && j < N
    ensures Share(t, o, i) >= 0.0 && (Share(t, o, i) > 0.0 <==> HasRule(t, o, i))
    ensures Times(Share(t, o, i), Coeff(t, o, j)) == Times(Share(t, o, j), Coeff(t, o, i))
  {
    hide Coeff, HasRule, NormalizeRow, Times;
    TableRow(t, o);
    CoeffIff(t, o, i);
    NormalizeKeeps(CoeffRow(t, o), i, j);
  }

  /** What one entry of a step is made from: the share of the rule that leads from i to o, or from o to i. */
  function StepShare(t: Table, down: bool, o: nat, i: nat): real
    requires o < N && i < N
  {
    if down then Share(t, o, i) else Share(t, i, o)
  }

  /** The selected entries of a table, before they are normalized again. */
  lemma {:induction false} Selected(t: Table, down: bool, ins: set<nat>, outs: set<nat>, o: nat)
    requires GoodTable(t) && o < N
    ensures var b := Restrict(Normalize(ApplyRules(Zero(), t.rules)), down, ins, outs);
            && NonNegative(b[o])
            && forall i :: 0 <= i < N ==> b[o][i] == if o in outs && i in ins then StepShare(t, down, o, i) else 0.0
  {
    hide ApplyRules, NormalizeRow, Coeff;
    forall i | 0 <= i < N
      ensures Normalize(ApplyRules(Zero(), t.rules))[o][i] == Share(t, o, i) >= 0.0
      ensures Normalize(ApplyRules(Zero(), t.rules))[i][o] == Share(t, i, o) >= 0.0
    {
      TableRow(t, o);
      TableRow(t, i);
      ShareKeeps(t, o, i, i);
      ShareKeeps(t, i, o, o);
    }
  }

  /**
   * One step of a mapping, in terms of the rules alone: an output takes from an input exactly when both
   * take part and a rule leads from one to the other, and in proportion to the shares of these rules.
   */
  lemma {:induction false} FillIs(t: Table, down: bool, ins: set<nat>, outs: set<nat>, o: nat, i: nat, j: nat)
    requires GoodTable(t) && o < N && i < N && j < N
    ensures var f := Fill(t, down, ins, outs);
            && (f[o][i] > 0.0 <==> o in outs && i in ins && if down then HasRule(t, o, i) else HasRule(t, i, o))
            && (i in ins && j in ins ==>
                  Times(f[o][i], StepShare(t, down, o, j)) == Times(f[o][j], StepShare(t, down, o, i)))
  {
    hide ApplyRules, NormalizeRow, Share, HasRule, Times, Restrict;
    var b := Restrict(Normalize(ApplyRules(Zero(), t.rules)), down, ins, outs);
    Selected(t, down, ins, outs, o);
    NormalizeKeeps(b[o], i, j);
    ShareKeeps(t, o, i, j);
    ShareKeeps(t, i, o, o);
    assert Fill(t, down, ins, outs)[o] == NormalizeRow(b[o]);
    if o !in outs {
      FillWeights(t, down, ins, outs);
      NormalizeKeeps(b[o], j, j);
      ZeroTimes(Fill(t, down, ins, outs)[o][i], StepShare(t, down, o, j));
      ZeroTimes(Fill(t, down, ins, outs)[o][j], StepShare(t, down, o, i));
    }
  }

  lemma {:induction false} ZeroTimes(x: real, y: real)
    ensures x == 0.0 ==> Times(x, y) == 0.0
  {
  }

  /** Downmixing keeps the ratio of the coefficients themselves. */
  lemma {:induction false} DownmixRatio(t: Table, ins: set<nat>, outs: set<nat>, o: nat, i: nat, j: nat)
    requires GoodTable(t) && o < N && i < N && j < N && i in ins && j in ins
    ensures var f := Fill(t, true, ins, outs);
            Times(f[o][i], Coeff(t, o, j)) == Times(f[o][j], Coeff(t, o, i))
  {
    hide Fill, Share, Coeff, HasRule;
    FillIs(t, true, ins, outs, o, i, j);
    FillIs(t, true, ins, outs, o, j, i);
    FillWeights(t, true, ins, outs);
    var f := Fill(t, true, ins, outs);
    assert Weights(f[o]);
    ShareKeeps(t, o, i, j);
    ShareKeeps(t, o, j, i);
    CoeffIff(t, o, i);
    CoeffIff(t, o, j);
    Chain(f[o][i], f[o][j], Share(t, o, i), Share(t, o, j), Coeff(t, o, i), Coeff(t, o, j));
  }

  /** Two proportions make one. */
  lemma {:induction false} Chain(x: real, y: real, a: real, b: real, c: real, d: real)
    requires x >= 0.0 && y >= 0.0 && a >= 0.0 && b >= 0.0 && c >= 0.0 && d >= 0.0
    requires Times(x, b) == Times(y, a) && Times(a, d) == Times(b, c)
    requires (a > 0.0 <==> c > 0.0) && (b > 0.0 <==> d > 0.0)
    ensures Times(x, d) == Times(y, c)
  {
    if b == 0.0 {
      assert d == 0.0;
      assert y * a == 0.0;
    } else {
      assert (x * d) * b == (y * c) * b by {
        assert (x * d) * b == (x * b) * d == (y * a) * d == y * (a * d) == y * (b * c);
      }
      CancelFactor(x * d, y * c, b);
    }
  }

  lemma {:induction false} CancelFactor(x: real, y: real, d: real)
    requires d > 0.0 && x * d == y * d
    ensures x == y
  {
    assert (x - y) * d == 0.0;
  }

  // ---------------------------------------------------------------- combined steps

  lemma {:induction false} ProductEntryIff(row: Row, prev: Matrix, p: nat, k: nat)
    requires p < N && k <= N && NonNegative(row) && NonNegativeMatrix(prev)
    ensures ProductEntry(row, prev, p, k) >= 0.0
    ensures ProductEntry(row, prev, p, k) > 0.0 <==> exists n :: 0 <= n < k && row[n] > 0.0 && prev[n][p] > 0.0
  {
    if k > 0 {
      ProductEntryIff(row, prev, p, k - 1);
      assert NonNegative(prev[k - 1]);
      PositiveProduct(row[k - 1], prev[k - 1][p]);
    }
  }

  lemma {:induction false} PositiveProduct(x: real, y: real)
    requires x >= 0.0 && y >= 0.0
    ensures x * y >= 0.0 && (x * y > 0.0 <==> x > 0.0 && y > 0.0)
  {
  }

  /** A combined output takes from an input exactly when some channel between them passes it on. */
  lemma {:induction false} CombineIff(prev: Matrix, next: Matrix, o: nat, i: nat)
    requires NonNegativeMatrix(prev) && NonNegativeMatrix(next) && o < N && i < N
    ensures Combine(prev, next)[o][i] > 0.0 <==> exists n :: 0 <= n < N && next[o][n] > 0.0 && prev[n][i] > 0.0
  {
    hide NormalizeRow, ProductEntry;
    var r := ProductRow(next[o], prev);
    assert NonNegative(next[o]);
    forall p | 0 <= p < N
      ensures r[p] >= 0.0
    {
      ProductEntryIff(next[o], prev, p, N);
    }
    ProductEntryIff(next[o], prev, i, N);
    NormalizeKeeps(r, i, i);
  }

  /** The weighted sum of a vector. */
  function Applied(row: Row, x: Row, k: nat): real
    requires k <= N
  {
    if k == 0 then 0.0 else Applied(row, x, k - 1) + Times(row[k - 1], x[k - 1])
  }

  /** A matrix applied to a vector. */
  function Image(m: Matrix, x: Row): Row { seq(N, n requires 0 <= n < N => Applied(m[n], x, N)) }

  /** The part of the product row that goes through the channels below k. */
  function PartialRow(row: Row, prev: Matrix, k: nat): Row
    requires k <= N
  {
    seq(N, p requires 0 <= p < N => ProductEntry(row, prev, p, k))
  }

  lemma {:induction false} AppliedAdds(a: Row, b: Row, c: Row, w: real, x: Row, k: nat)
    requires k <= N && forall p :: 0 <= p < N ==> c[p] == a[p] + w * b[p]
    ensures Applied(c, x, k) == Applied(a, x, k) + Times(w, Applied(b, x, k))
  {
    if k > 0 {
      AppliedAdds(a, b, c, w, x, k - 1);
      assert (a[k - 1] + w * b[k - 1]) * x[k - 1] == a[k - 1] * x[k - 1] + w * (b[k - 1] * x[k - 1]);
      assert w * (Applied(b, x, k - 1) + b[k - 1] * x[k - 1]) == w * Applied(b, x, k - 1) + w * (b[k - 1] * x[k - 1]);
    }
  }

  lemma {:induction false} NothingApplied(a: Row, x: Row, k: nat)
    requires k <= N && forall p :: 0 <= p < N ==> a[p] == 0.0
    ensures Applied(a, x, k) == 0.0
  {
    if k > 0 {
      NothingApplied(a, x, k - 1);
    }
  }

  lemma {:induction false} ProductActs(row: Row, prev: Matrix, x: Row, k: nat)
    requires k <= N
    ensures Applied(PartialRow(row, prev, k), x, N) == Applied(row, Image(prev, x), k)
  {
    hide Applied;
    if k == 0 {
      NothingApplied(PartialRow(row, prev, 0), x, N);
      AppliedNone(row, Image(prev, x));
    } else {
      ProductActs(row, prev, x, k - 1);
      AppliedAdds(PartialRow(row, prev, k - 1), prev[k - 1], PartialRow(row, prev, k), row[k - 1], x, N);
      AppliedNext(row, Image(prev, x), k);
    }
  }

  lemma {:induction false} AppliedNone(row: Row, x: Row)
    ensures Applied(row, x, 0) == 0.0
  {
  }

  lemma {:induction false} AppliedNext(row: Row, x: Row, k: nat)
    requires 0 < k <= N
    ensures Applied(row, x, k) == Applied(row, x, k - 1) + Times(row[k - 1], x[k - 1])
  {
  }

  lemma {:induction false} AppliedScaled(a: Row, b: Row, d: real, x: Row, k: nat)
    requires k <= N && d != 0.0 && forall p :: 0 <= p < N ==> b[p] == a[p] / d
    ensures Times(Applied(b, x, k), d) == Applied(a, x, k)
  {
    if k > 0 {
      AppliedScaled(a, b, d, x, k - 1);
      assert b[k - 1] * d == a[k - 1];
      assert (Applied(b, x, k - 1) + b[k - 1] * x[k - 1]) * d == Applied(b, x, k - 1) * d + (b[k - 1] * d) * x[k - 1];
    }
  }

  /** A combined mapping does what the first does and then the second, up to the sum of each row. */
  lemma {:induction false} CombineActs(prev: Matrix, next: Matrix, x: Row, o: nat)
    requires o < N
    ensures var total := Sum(ProductRow(next[o], prev), N);
            Times(Applied(Combine(prev, next)[o], x, N), if total == 0.0 then 1.0 else total)
            == Applied(next[o], Image(prev, x), N)
  {
    hide Applied, Sum, Image, ProductEntry;
    var r := ProductRow(next[o], prev);
    assert r == PartialRow(next[o], prev, N);
    ProductActs(next[o], prev, x, N);
    if Sum(r, N) != 0.0 {
      AppliedScaled(r, NormalizeRow(r), Sum(r, N), x, N);
    }
  }

  // ---------------------------------------------------------------- the whole search

  /** A rule of the table of a move leads from channel n of the current set to channel n' of the next. */
  ghost predicate Leads(tables: seq<Table>, cur: set<nat>, m: Move, n: nat, n': nat)
    requires (m.Down? || m.Up?) && m.table < |tables|
  {
    n in cur && n' in After(tables, cur, m)
    && if m.Down? then HasRule(tables[m.table], n', n) else HasRule(tables[m.table], n, n')
  }

  /** A chain of rules, one for every further move of the search, leads from channel n to channel o. */
  ghost predicate Chained(tables: seq<Table>, cur: set<nat>, out: set<nat>, rounds: nat, k: nat, n: nat, o: nat)
    decreases k
  {
    k > 0 &&
    var m := NextMove(tables, cur, out, rounds);
    match m
    case Stop => n == o
    case Hang => false
    case _ =>
      exists n': nat :: n' < N && Leads(tables, cur, m, n, n')
                        && Chained(tables, After(tables, cur, m), out, rounds, k - 1, n', o)
  }

  /** The mapping found so far takes from input i into channel n. */
  ghost predicate Heard(acc: Option<Matrix>, i: nat, n: nat)
    requires i < N && n < N
  {
    if acc.Some? then acc.value[n][i] > 0.0 else n == i
  }

  /** And after one more move, into channel n'. */
  ghost predicate HeardAfter(tables: seq<Table>, acc: Option<Matrix>, cur: set<nat>, m: Move, i: nat, n': nat)
    requires (m.Down? || m.Up?) && m.table < |tables| && i < N
  {
    exists n: nat :: n < N && Heard(acc, i, n) && Leads(tables, cur, m, n, n')
  }

  lemma {:induction false} ExtendIff(tables: seq<Table>, acc: Option<Matrix>, cur: set<nat>, m: Move, i: nat, n': nat)
    requires GoodTables(tables) && (m.Down? || m.Up?) && m.table < |tables| && i < N && n' < N
    requires acc.Some? ==> WeightMatrix(acc.value)
    ensures Extend(tables, acc, cur, m)[n'][i] > 0.0 <==> HeardAfter(tables, acc, cur, m, i, n')
  {
    hide Fill, Combine, HasRule;
    var t, outs := tables[m.table], After(tables, cur, m);
    var f := Fill(t, m.Down?, cur, outs);
    forall n: nat | n < N
      ensures f[n'][n] > 0.0 <==> Leads(tables, cur, m, n, n')
    {
      FillIs(t, m.Down?, cur, outs, n', n, n);
    }
    if acc.Some? {
      FillWeights(t, m.Down?, cur, outs);
      AllNonNegative(f);
      AllNonNegative(acc.value);
      CombineIff(acc.value, f, n', i);
    }
  }

  lemma {:induction false} AllNonNegative(m: Matrix)
    requires WeightMatrix(m)
    ensures NonNegativeMatrix(m)
  {
    forall o | 0 <= o < N
      ensures NonNegative(m[o])
    {
      assert Weights(m[o]);
    }
  }

  /**
   * The matrix of a search that ends, in terms of rules alone: an output takes from an input exactly
   * when a chain of rules leads from one to the other, through every table that was chosen.
   */
  lemma {:induction false} MappingIff(
    tables: seq<Table>, acc: Option<Matrix>, cur: set<nat>, out: set<nat>, rounds: nat, k: nat, i: nat, o: nat)
    requires GoodTables(tables) && i < N && o < N
    requires acc.Some? ==> WeightMatrix(acc.value)
    ensures var r := Mapping(tables, acc, cur, out, rounds, k);
            r.Mapped? && r.mapping.Some? ==>
              (r.mapping.value[o][i] > 0.0
               <==> exists n: nat :: n < N && Heard(acc, i, n) && Chained(tables, cur, out, rounds, k, n, o))
    decreases k
  {
    hide NextMove, Fill, Combine, WeightMatrix, Leads, Extend;
    if k > 0 {
      var m := NextMove(tables, cur, out, rounds);
      if m.Down? || m.Up? {
        var next, more := After(tables, cur, m), Extend(tables, acc, cur, m);
        StepWeights(tables, acc, cur, m);
        MappingIff(tables, Some(more), next, out, rounds, k - 1, i, o);
        forall n': nat | n' < N
          ensures Heard(Some(more), i, n') <==> HeardAfter(tables, acc, cur, m, i, n')
        {
          ExtendIff(tables, acc, cur, m, i, n');
        }
        ChainsJoin(tables, acc, cur, out, rounds, k, i, o);
      } else if m.Stop? && acc.Some? {
        assert Chained(tables, cur, out, rounds, k, o, o);
        assert Heard(acc, i, o) <==> acc.value[o][i] > 0.0;
      }
    }
  }

  /** Hearing of a channel after a move, and a chain from there: the same as a chain that begins with the move. */
  lemma {:induction false} ChainsJoin(
    tables: seq<Table>, acc: Option<Matrix>, cur: set<nat>, out: set<nat>, rounds: nat, k: nat, i: nat, o: nat)
    requires k > 0 && i < N && o < N
    requires var m := NextMove(tables, cur, out, rounds); m.Down? || m.Up?
    ensures var m := NextMove(tables, cur, out, rounds);
            var next := After(tables, cur, m);
            (exists n': nat :: n' < N && HeardAfter(tables, acc, cur, m, i, n') && Chained(tables, next, out, rounds, k - 1, n', o))
            <==> (exists n: nat :: n < N && Heard(acc, i, n) && Chained(tables, cur, out, rounds, k, n, o))
  {
    hide NextMove, Leads, Heard;
    var m := NextMove(tables, cur, out, rounds);
    var next := After(tables, cur, m);
    if n: nat :| n < N && Heard(acc, i, n) && Chained(tables, cur, out, rounds, k, n, o) {
      var n': nat :| n' < N && Leads(tables, cur, m, n, n') && Chained(tables, next, out, rounds, k - 1, n', o);
      assert HeardAfter(tables, acc, cur, m, i, n');
    }
    if n': nat :| n' < N && HeardAfter(tables, acc, cur, m, i, n') && Chained(tables, next, out, rounds, k - 1, n', o) {
      var n: nat :| n < N && Heard(acc, i, n) && Leads(tables, cur, m, n, n');
      assert Chained(tables, cur, out, rounds, k, n, o);
    }
  }

  lemma {:induction false} StepWeights(tables: seq<Table>, acc: Option<Matrix>, cur: set<nat>, m: Move)
    requires GoodTables(tables) && (m.Down? || m.Up?) && m.table < |tables|
    requires acc.Some? ==> WeightMatrix(acc.value)
    ensures WeightMatrix(Extend(tables, acc, cur, m))
  {
    hide Fill, Combine;
    var f := Fill(tables[m.table], m.Down?, cur, After(tables, cur, m));
    FillWeights(tables[m.table], m.Down?, cur, After(tables, cur, m));
    if acc.Some? {
      AllNonNegative(f);
      AllNonNegative(acc.value);
      CombineWeights(acc.value, f, {});
    }
  }

  // ---------------------------------------------------------------- the final matrix

  ghost predicate IsChannels(chans: seq<nat>) { forall i :: 0 <= i < |chans| ==> chans[i] < N }

  /** By place in the frame: an output sample takes from an input sample exactly along a chain of rules. */
  lemma {:induction false} BuildIff(tables: seq<Table>, ins: seq<nat>, outs: seq<nat>, rounds: nat, k: nat, i: nat, o: nat)
    requires GoodTables(tables) && IsChannels(ins) && IsChannels(outs)
    requires i < |ins| && i < N && o < |outs| && o < N
    requires Build(tables, ins, outs, rounds, k).Some?
    ensures Build(tables, ins, outs, rounds, k).value[o][i] > 0.0
            <==> if Elems(ins) == Elems(outs) then ins[i] == outs[o]
                 else Chained(tables, Elems(ins), Elems(outs), rounds, k, ins[i], outs[o])
  {
    hide Mapping, Elems, Chained;
    if Elems(ins) != Elems(outs) {
      var r := Mapping(tables, None, Elems(ins), Elems(outs), rounds, k);
      MappingIff(tables, None, Elems(ins), Elems(outs), rounds, k, ins[i], outs[o]);
      if r.mapping.None? {
        NoMove(tables, Elems(ins), Elems(outs), rounds, k, ins[i], outs[o]);
      }
    }
  }

  lemma {:induction false} NoMove(tables: seq<Table>, cur: set<nat>, out: set<nat>, rounds: nat, k: nat, n: nat, o: nat)
    requires GoodTables(tables) && Mapping(tables, None, cur, out, rounds, k) == Mapped(None)
    ensures Chained(tables, cur, out, rounds, k, n, o) <==> n == o
  {
    hide NextMove, Extend;
    var m := NextMove(tables, cur, out, rounds);
    if m.Down? || m.Up? {
      SomeStays(tables, Extend(tables, None, cur, m), After(tables, cur, m), out, rounds, k - 1);
    }
  }

  lemma {:induction false} SomeStays(tables: seq<Table>, acc: Matrix, cur: set<nat>, out: set<nat>, rounds: nat, k: nat)
    requires GoodTables(tables)
    ensures Mapping(tables, Some(acc), cur, out, rounds, k) != Mapped(None)
    decreases k
  {
    hide NextMove, Extend;
    if k > 0 {
      var m := NextMove(tables, cur, out, rounds);
      if m.Down? || m.Up? {
        SomeStays(tables, Extend(tables, Some(acc), cur, m), After(tables, cur, m), out, rounds, k - 1);
      }
    }
  }

  /** A search of one downmix: the entries of an output stand in the ratio of its rules' coefficients. */
  lemma {:induction false} OneDownmix(
    tables: seq<Table>, ins: seq<nat>, outs: seq<nat>, t: nat, rounds: nat, k: nat, o: nat, i: nat, j: nat)
    requires GoodTables(tables) && IsChannels(ins) && IsChannels(outs) && k >= 2 && t < |tables|
    requires Elems(ins) != Elems(outs)
    requires NextMove(tables, Elems(ins), Elems(outs), rounds) == Down(t)
    requires NextMove(tables, tables[t].outMask, Elems(outs), rounds) == Stop
    requires o < |outs| && o < N && i < |ins| && i < N && j < |ins| && j < N
    ensures var m := Build(tables, ins, outs, rounds, k);
            && m.Some?
            && (m.value[o][i] > 0.0 <==> HasRule(tables[t], outs[o], ins[i]))
            && Times(m.value[o][i], Coeff(tables[t], outs[o], ins[j])) == Times(m.value[o][j], Coeff(tables[t], outs[o], ins[i]))
  {
    hide NextMove, Fill, HasRule, Coeff, Times, Elems;
    var f := Fill(tables[t], true, Elems(ins), tables[t].outMask);
    var m := NextMove(tables, Elems(ins), Elems(outs), rounds);
    assert Extend(tables, None, Elems(ins), m) == f;
    assert Mapping(tables, Some(f), tables[t].outMask, Elems(outs), rounds, k - 1) == Mapped(Some(f));
    DownCovers(tables, Elems(ins), Elems(outs), rounds);
    FillIs(tables[t], true, Elems(ins), tables[t].outMask, outs[o], ins[i], ins[j]);
    DownmixRatio(tables[t], Elems(ins), tables[t].outMask, outs[o], ins[i], ins[j]);
  }

  lemma {:induction false} DownCovers(tables: seq<Table>, cur: set<nat>, out: set<nat>, rounds: nat)
    requires NextMove(tables, cur, out, rounds).Down?
    ensures out <= tables[NextMove(tables, cur, out, rounds).table].outMask
  {
  }

  // ---------------------------------------------------------------- stereo to mono

  /** The rules of the shipped table from 2.1 to 1.1. */
  ghost predicate HalfAndHalf(t: Table, c: real) {
    c > 0.0 && t.rules == [Rule(FC, FL, c), Rule(FC, FR, c), Rule(LFE, LFE, 1.0)]
  }

  lemma {:induction false} StereoMoves(tables: seq<Table>, rounds: nat)
    requires Shipped(tables)
    ensures NextMove(tables, {FL, FR}, {FC}, rounds) == Down(1)
    ensures tables[1].outMask == {FC, LFE} && NextMove(tables, {FC, LFE}, {FC}, rounds) == Stop
  {
    SmallCodes();
    StereoMasks(tables);
    hide Shipped, Chans, InCodeOf;
    var stereo, mono := {FL, FR}, {FC};
    assert FL !in tables[0].inMask && stereo <= tables[1].inMask;
    assert ClusterCovers(tables, tables[1].inMask, mono, 1);
    assert CanDownmix(tables, stereo, mono, 1);
    assert NextDownmix(tables, stereo, mono, 1) == Some(1);
    assert FL in stereo && !(stereo <= tables[0].inMask);
    assert ClusterCovers(tables, tables[0].inMask, mono, 0);
    NoneFits(tables, 0);
  }

  lemma {:induction false} StereoMasks(tables: seq<Table>)
    requires Shipped(tables)
    ensures |tables| == SHIPPED
    ensures FL !in tables[0].inMask && FL in tables[1].inMask && FR in tables[1].inMask
    ensures tables[0].outMask == tables[1].outMask == {FC, LFE} && FC in tables[0].inMask && LFE in tables[0].inMask
    ensures forall i :: 0 <= i < |tables| ==> LFE in tables[i].outMask
  {
    SmallCodes();
  }

  lemma {:induction false} NoneFits(tables: seq<Table>, k: nat)
    requires k <= |tables| && forall i :: 0 <= i < |tables| ==> LFE in tables[i].outMask
    ensures NextDownmix(tables, {FC, LFE}, {FC}, k).None?
    decreases |tables| - k
  {
    if k < |tables| {
      NoneFits(tables, k + 1);
    }
  }

  lemma {:induction false} HalfCoeffs(t: Table, c: real)
    requires HalfAndHalf(t, c)
    ensures Coeff(t, FC, FL) == Coeff(t, FC, FR) == c && HasRule(t, FC, FL)
  {
    var r := t.rules;
    assert r[0].coeff != 0.0 && r[1].coeff != 0.0 && r[2].coeff != 0.0;
    assert InForce(r) == r by {
      InForce3(r);
    }
    assert r[..2][..1] == r[..1];
    assert LastCoeff(r, FC, FR) == LastCoeff(r[..2], FC, FR) == c;
    assert LastCoeff(r, FC, FL) == LastCoeff(r[..2], FC, FL) == LastCoeff(r[..1], FC, FL) == c;
    assert InForce(r)[0].outCh == FC && InForce(r)[0].inCh == FL;
  }

  lemma {:induction false} InForce3(r: seq<Rule>)
    requires |r| == 3 && r[0].coeff != 0.0 && r[1].coeff != 0.0 && r[2].coeff != 0.0
    ensures InForce(r) == r
  {
    assert |InForce(r)| == 3;
  }

  /** With the shipped table, mono is half of the left channel and half of the right one. */
  lemma {:induction false} StereoToMono(tables: seq<Table>, c: real, left: real, right: real, rounds: nat, k: nat)
    requires GoodTables(tables) && Shipped(tables) && HalfAndHalf(tables[1], c) && k >= 2
    requires -1.0 <= left <= 1.0 && -1.0 <= right <= 1.0
    ensures var m := Build(tables, [FL, FR], [FC], rounds, k);
            m.Some? && MapFrame(m.value, [left, right], 1) == [(left + right) / 2.0]
  {
    hide NextMove, Fill, HasRule, Coeff, Shipped, Mapping;
    var ins, outs := [FL, FR], [FC];
    assert Elems(ins) == {FL, FR} && Elems(outs) == {FC};
    assert FL !in Elems(outs);
    StereoMoves(tables, rounds);
    HalfCoeffs(tables[1], c);
    OneDownmix(tables, ins, outs, 1, rounds, k, 0, 0, 1);
    BuildWeights(tables, ins, outs, rounds, k);
    var row := Build(tables, ins, outs, rounds, k).value[0];
    assert Weights(row);
    SumOfTwo(row);
    assert row[0] == row[1] by {
      CancelFactor(row[0], row[1], c);
    }
    DotOfTwo(row, [left, right]);
  }

  lemma {:induction false} DotOfTwo(row: Row, frame: seq<real>)
    requires |frame| == 2
    ensures Dot(row, frame, 2) == frame[0] * row[0] + frame[1] * row[1]
  {
    assert Dot(row, frame, 1) == frame[0] * row[0];
  }

  lemma {:induction false} SumOfTwo(r: Row)
    requires forall i :: 2 <= i < N ==> r[i] == 0.0
    ensures Sum(r, N) == r[0] + r[1]
  {
    SumFromTwo(r, N);
  }

  lemma {:induction false} SumFromTwo(r: Row, k: nat)
    requires 2 <= k <= N && forall i :: 2 <= i < N ==> r[i] == 0.0
    ensures Sum(r, k) == r[0] + r[1]
  {
    if k > 2 {
      SumFromTwo(r, k - 1);
    } else {
      assert Sum(r, 1) == r[0];
    }
  }
}
