/**
 * The search for a sequence of mapping tables that leads from one channel set to another.
 * Only downmixing tables exist; upmixing uses them in reverse.
 */
module MixSearch {
  import opened Options
  import opened MixMatrix

  datatype Rule = Rule(outCh: nat, inCh: nat, coeff: real)

  datatype Table = Table(inMask: set<nat>, outMask: set<nat>, rules: seq<Rule>)

  ghost predicate GoodTable(t: Table) {
    forall i :: 0 <= i < |t.rules| ==> t.rules[i].outCh < N && t.rules[i].inCh < N && t.rules[i].coeff >= 0.0
  }

  ghost predicate GoodTables(tables: seq<Table>) {
    forall i :: 0 <= i < |tables| ==> GoodTable(tables[i])
  }

  // ---------------------------------------------------------------- selecting tables

  /** Table t takes cur one step down towards out: it loses some channel of cur and none of out. */
  predicate DownFits(t: Table, cur: set<nat>, out: set<nat>) {
    cur <= t.inMask && out <= t.outMask && !(cur <= t.outMask)
  }

  /** First fitting table at or after index k. */
  function NextDownmix(tables: seq<Table>, cur: set<nat>, out: set<nat>, k: nat := 0): (r: Option<nat>)
    requires k <= |tables|
    ensures r.Some? ==> k <= r.value < |tables| && DownFits(tables[r.value], cur, out)
    decreases |tables| - k
  {
    if k == |tables| then None
    else if DownFits(tables[k], cur, out) then Some(k)
    else NextDownmix(tables, cur, out, k + 1)
  }

  /** Upmixing from cur reverses a downmix from next; the first table that fits is taken. */
  function BestUpmix(tables: seq<Table>, cur: set<nat>, next: set<nat>): (r: Option<nat>)
    ensures r.Some? ==> r.value < |tables| && cur <= tables[r.value].outMask
  {
    NextDownmix(tables, next, cur)
  }

  /** Some table of the cluster that starts at k (same input mask) covers out. */
  predicate ClusterCovers(tables: seq<Table>, mask: set<nat>, out: set<nat>, k: nat)
    requires k <= |tables|
    decreases |tables| - k
  {
    k < |tables| && tables[k].inMask == mask &&
    (out <= tables[k].outMask || ClusterCovers(tables, mask, out, k + 1))
  }

  predicate CanDownmix(tables: seq<Table>, cur: set<nat>, out: set<nat>, k: nat := 0)
    requires k <= |tables|
    decreases |tables| - k
  {
    k < |tables| &&
    if cur <= tables[k].inMask then ClusterCovers(tables, tables[k].inMask, out, k)
    else CanDownmix(tables, cur, out, k + 1)
  }

  /** How a walk went: it ended and found a table or none, or it was still going after the given rounds. */
  datatype Walk = Ended(found: Option<nat>) | Going

  /** The backwards walk of next_upmix_table_, watched for a number of rounds. */
  function UpmixSearch(tables: seq<Table>, cur: set<nat>, next: set<nat>, found: Option<nat>, rounds: nat): (r: Walk)
    requires found.Some? ==> found.value < |tables| && cur <= tables[found.value].outMask
    ensures r.Ended? && r.found.Some? ==> r.found.value < |tables| && cur <= tables[r.found.value].outMask
    decreases rounds
  {
    if rounds == 0 then Going
    else
      match BestUpmix(tables, cur, next)
      case None => Ended(found)
      case Some(b) => UpmixSearch(tables, cur, tables[b].outMask, Some(b), rounds - 1)
  }

  // ---------------------------------------------------------------- steps

  /** Hang: the walk for an upmixing table is still going. */
  datatype Move = Stop | Down(table: nat) | Up(table: nat) | Hang

  /** One round of build_channel_mapping_. */
  function NextMove(tables: seq<Table>, cur: set<nat>, out: set<nat>, rounds: nat): (m: Move)
    ensures m.Down? || m.Up? ==> m.table < |tables|
    ensures m.Up? ==> cur <= tables[m.table].outMask
  {
    if CanDownmix(tables, cur, out) then
      match NextDownmix(tables, cur, out)
      case None => Stop
      case Some(t) => Down(t)
    else
      match UpmixSearch(tables, cur, out, None, rounds)
      case Going => Hang
      case Ended(None) => Stop
      case Ended(Some(t)) => Up(t)
  }

  function After(tables: seq<Table>, cur: set<nat>, m: Move): set<nat>
    requires m.Down? || m.Up? ==> m.table < |tables|
  {
    match m
    case Stop | Hang => cur
    case Down(t) => tables[t].outMask
    case Up(t) => tables[t].inMask
  }

  /** The first k moves of the search; there are fewer when no table fits or a walk does not end. */
  function Moves(tables: seq<Table>, cur: set<nat>, out: set<nat>, rounds: nat, k: nat): seq<Move>
    decreases k
  {
    if k == 0 then []
    else
      var m := NextMove(tables, cur, out, rounds);
      if m.Stop? || m.Hang? then [] else [m] + Moves(tables, After(tables, cur, m), out, rounds, k - 1)
  }

  /** A current set that covers the output is never upmixed. */
  lemma {:induction false} NoUpmixOnceCovering(tables: seq<Table>, cur: set<nat>, out: set<nat>, rounds: nat)
    requires out <= cur
    ensures !NextMove(tables, cur, out, rounds).Up?
  {
    NothingToLose(tables, out, cur, 0);
  }

  /** What is already within the target cannot be downmixed. */
  lemma {:induction false} NothingToLose(tables: seq<Table>, cur: set<nat>, out: set<nat>, k: nat)
    requires cur <= out && k <= |tables|
    ensures NextDownmix(tables, cur, out, k).None?
    decreases |tables| - k
  {
    if k < |tables| {
      NothingToLose(tables, cur, out, k + 1);
    }
  }

  /** A downmix keeps every output channel and loses at least one current channel. */
  lemma {:induction false} DownKeepsOutput(tables: seq<Table>, cur: set<nat>, out: set<nat>, rounds: nat)
    requires NextMove(tables, cur, out, rounds).Down?
    ensures var next := After(tables, cur, NextMove(tables, cur, out, rounds));
            out <= next && exists c :: c in cur && c !in next
  {
    var t := tables[NextMove(tables, cur, out, rounds).table];
    assert DownFits(t, cur, out);
  }

  /** Whatever the tables: first only upmixes, then only downmixes. */
  lemma {:induction false} UpsThenDowns(tables: seq<Table>, cur: set<nat>, out: set<nat>, rounds: nat, k: nat, i: nat, j: nat)
    requires var ms := Moves(tables, cur, out, rounds, k);
             i < j < |ms| && ms[i].Down?
    ensures Moves(tables, cur, out, rounds, k)[j].Down?
    decreases k
  {
    var m := NextMove(tables, cur, out, rounds);
    var next := After(tables, cur, m);
    var ms := Moves(tables, next, out, rounds, k - 1);
    if i == 0 {
      DownKeepsOutput(tables, cur, out, rounds);
      OnlyDowns(tables, next, out, rounds, k - 1, j - 1);
    } else {
      UpsThenDowns(tables, next, out, rounds, k - 1, i - 1, j - 1);
    }
  }

  lemma {:induction false} OnlyDowns(tables: seq<Table>, cur: set<nat>, out: set<nat>, rounds: nat, k: nat, j: nat)
    requires out <= cur && j < |Moves(tables, cur, out, rounds, k)|
    ensures Moves(tables, cur, out, rounds, k)[j].Down?
    decreases k
  {
    NoUpmixOnceCovering(tables, cur, out, rounds);
    if j > 0 {
      DownKeepsOutput(tables, cur, out, rounds);
      OnlyDowns(tables, After(tables, cur, NextMove(tables, cur, out, rounds)), out, rounds, k - 1, j - 1);
    }
  }

  // ---------------------------------------------------------------- from tables to matrices

  function SetEntry(m: Matrix, o: nat, i: nat, x: real): Matrix
    requires o < N && i < N
  {
    m[o := m[o][i := x]]
  }

  /** Rules are applied in order, up to the first one with a zero coefficient. */
  function ApplyRules(m: Matrix, rules: seq<Rule>): Matrix
    requires forall i :: 0 <= i < |rules| ==> rules[i].outCh < N && rules[i].inCh < N
    decreases |rules|
  {
    if rules == [] || rules[0].coeff == 0.0 then m
    else ApplyRules(SetEntry(m, rules[0].outCh, rules[0].inCh, rules[0].coeff), rules[1..])
  }

  /** The part of a (possibly transposed) table matrix that concerns the given channels. */
  function RestrictRow(m: Matrix, down: bool, ins: set<nat>, outs: set<nat>, o: nat): Row
    requires o < N
  {
    seq(N, i requires 0 <= i < N =>
      if o in outs && i in ins then if down then m[o][i] else m[i][o] else 0.0)
  }

  function Restrict(m: Matrix, down: bool, ins: set<nat>, outs: set<nat>): Matrix {
    seq(N, o requires 0 <= o < N => RestrictRow(m, down, ins, outs, o))
  }

  /** fill_mapping_from_table_ */
  function Fill(t: Table, down: bool, ins: set<nat>, outs: set<nat>): Matrix
    requires GoodTable(t)
  {
    Normalize(Restrict(Normalize(ApplyRules(Zero(), t.rules)), down, ins, outs))
  }

  lemma {:induction false} RulesNonNegative(m: Matrix, rules: seq<Rule>)
    requires NonNegativeMatrix(m)
    requires forall i :: 0 <= i < |rules| ==> rules[i].outCh < N && rules[i].inCh < N && rules[i].coeff >= 0.0
    ensures NonNegativeMatrix(ApplyRules(m, rules))
    decreases |rules|
  {
    if rules != [] && rules[0].coeff != 0.0 {
      var r := rules[0];
      var m' := SetEntry(m, r.outCh, r.inCh, r.coeff);
      forall o | 0 <= o < N
        ensures NonNegative(m'[o])
      {
        assert NonNegative(m[o]);
      }
      RulesNonNegative(m', rules[1..]);
    }
  }

  /** The matrix of one step: weights over the current channels. */
  lemma {:induction false} FillWeights(t: Table, down: bool, ins: set<nat>, outs: set<nat>)
    requires GoodTable(t)
    ensures WeightMatrix(Fill(t, down, ins, outs)) && UsesOnly(Fill(t, down, ins, outs), ins)
  {
    hide Normalize, ApplyRules;
    assert NonNegativeMatrix(Zero());
    RulesNonNegative(Zero(), t.rules);
    var a := Normalize(ApplyRules(Zero(), t.rules));
    NormalizeWeights(ApplyRules(Zero(), t.rules), ins);
    var b := Restrict(a, down, ins, outs);
    forall o | 0 <= o < N
      ensures NonNegative(b[o])
    {
      forall i | 0 <= i < N
        ensures b[o][i] >= 0.0
      {
        assert Weights(a[o]) && Weights(a[i]);
      }
    }
    assert UsesOnly(b, ins);
    NormalizeWeights(b, ins);
  }

  /** The mapping after one more move. */
  function Extend(tables: seq<Table>, acc: Option<Matrix>, cur: set<nat>, m: Move): Matrix
    requires GoodTables(tables) && (m.Down? || m.Up?) && m.table < |tables|
  {
    var f := Fill(tables[m.table], m.Down?, cur, After(tables, cur, m));
    if acc.None? then f else Combine(acc.value, f)
  }

  /** How the search went: it ended with a mapping, or with none if there was no move, or it was still going. */
  datatype Outcome = Mapped(mapping: Option<Matrix>) | Unfinished

  /** The search from cur on, watched for k moves with so many rounds for every walk. */
  function Mapping(tables: seq<Table>, acc: Option<Matrix>, cur: set<nat>, out: set<nat>, rounds: nat, k: nat): Outcome
    requires GoodTables(tables)
    decreases k
  {
    if k == 0 then Unfinished
    else
      var m := NextMove(tables, cur, out, rounds);
      match m
      case Stop => Mapped(acc)
      case Hang => Unfinished
      case Up(_) => Mapping(tables, Some(Extend(tables, acc, cur, m)), After(tables, cur, m), out, rounds, k - 1)
      case Down(_) => Mapping(tables, Some(Extend(tables, acc, cur, m)), After(tables, cur, m), out, rounds, k - 1)
  }

  /** Through any number of combined steps the matrix stays one of weights over the original input channels. */
  lemma {:induction false} MappingWeights(
    tables: seq<Table>, acc: Option<Matrix>, ins: set<nat>, cur: set<nat>, out: set<nat>, rounds: nat, k: nat)
    requires GoodTables(tables)
    requires if acc.Some? then WeightMatrix(acc.value) && UsesOnly(acc.value, ins) else cur == ins
    ensures var r := Mapping(tables, acc, cur, out, rounds, k);
            r.Mapped? && r.mapping.Some? ==> WeightMatrix(r.mapping.value) && UsesOnly(r.mapping.value, ins)
    decreases k
  {
    hide NextMove, Fill, Combine, WeightMatrix, UsesOnly;
    if k > 0 {
      var m := NextMove(tables, cur, out, rounds);
      if m.Down? || m.Up? {
        ExtendWeights(tables, acc, ins, cur, m);
        MappingWeights(tables, Some(Extend(tables, acc, cur, m)), ins, After(tables, cur, m), out, rounds, k - 1);
      }
    }
  }

  lemma {:induction false} ExtendWeights(tables: seq<Table>, acc: Option<Matrix>, ins: set<nat>, cur: set<nat>, m: Move)
    requires GoodTables(tables) && (m.Down? || m.Up?) && m.table < |tables|
    requires if acc.Some? then WeightMatrix(acc.value) && UsesOnly(acc.value, ins) else cur == ins
    ensures WeightMatrix(Extend(tables, acc, cur, m)) && UsesOnly(Extend(tables, acc, cur, m), ins)
  {
    hide Fill, Combine;
    var outs := After(tables, cur, m);
    FillWeights(tables[m.table], m.Down?, cur, outs);
    if acc.Some? {
      CombineWeights(acc.value, Fill(tables[m.table], m.Down?, cur, outs), ins);
    }
  }
}
