/**
 * The shipped mapping tables, as far as the search sees them: their masks. All of them contain the
 * low-frequency channel, and other channels only come in groups, one bit for each.
 */
module ShippedTables {
  import opened MixMatrix
  import opened MixSearch

  const FL: nat := 0
  const FLC: nat := 1
  const FC: nat := 2
  const FRC: nat := 3
  const FR: nat := 4
  const SL: nat := 5
  const SR: nat := 6
  const BL: nat := 7
  const BC: nat := 8
  const BR: nat := 9
  const TFL: nat := 10
  const TFR: nat := 11
  const TML: nat := 12
  const TMR: nat := 13
  const TBL: nat := 14
  const TBR: nat := 15
  const LFE: nat := 16

  const SHIPPED := 71

  type Code = bv8

  /** The bit of the group of a channel. */
  function BitOf(c: nat): Code {
    if c == FL || c == FR then 0x01
    else if c == FC then 0x02
    else if c == FLC || c == FRC then 0x04
    else if c == BL || c == BR then 0x08
    else if c == SL || c == SR then 0x10
    else if c == BC then 0x20
    else if c == TML || c == TMR then 0x40
    else if c == TFL || c == TFR || c == TBL || c == TBR then 0x80
    else 0x00
  }

  predicate InCodeOf(code: Code, c: nat) { c == LFE || code & BitOf(c) != 0 }

  /** The mask with the groups of a code. */
  function Chans(code: Code): set<nat> {
    set c: nat | c < N && InCodeOf(code, c)
  }

  /** Input masks of the list, table by table. */
  function InCode(i: nat): Code {
    if i < 1 then 0x06 else if i < 2 then 0x01 else if i < 4 then 0x03 else if i < 6 then 0x07
    else if i < 8 then 0x09 else if i < 10 then 0x0B else if i < 12 then 0x0F else if i < 15 then 0x4B
    else if i < 19 then 0x4F else if i < 23 then 0x8B else if i < 28 then 0x8F else if i < 32 then 0x2B
    else if i < 36 then 0x2F else if i < 40 then 0x1B else if i < 45 then 0x1F else if i < 50 then 0x5B
    else if i < 57 then 0x5F else if i < 63 then 0x9B else 0x9F
  }

  /** Output masks of the list, table by table. */
  function OutCode(i: nat): Code {
    if i < 3 then 0x02 else if i < 4 then 0x01 else if i < 5 then 0x06 else if i < 6 then 0x03
    else if i < 7 then 0x01 else if i < 9 then 0x03 else if i < 10 then 0x09 else if i < 11 then 0x07
    else if i < 12 then 0x0B else if i < 13 then 0x03 else if i < 14 then 0x09 else if i < 15 then 0x0B
    else if i < 16 then 0x07 else if i < 17 then 0x0B else if i < 18 then 0x0F else if i < 19 then 0x4B
    else if i < 20 then 0x03 else if i < 21 then 0x09 else if i < 22 then 0x0B else if i < 23 then 0x4B
    else if i < 24 then 0x07 else if i < 25 then 0x0B else if i < 26 then 0x0F else if i < 27 then 0x4F
    else if i < 28 then 0x8B else if i < 29 then 0x09 else if i < 30 then 0x0B else if i < 31 then 0x4B
    else if i < 32 then 0x8B else if i < 33 then 0x0F else if i < 34 then 0x4F else if i < 35 then 0x8F
    else if i < 36 then 0x2B else if i < 37 then 0x0B else if i < 38 then 0x4B else if i < 39 then 0x8B
    else if i < 40 then 0x2B else if i < 41 then 0x0F else if i < 42 then 0x4F else if i < 43 then 0x8F
    else if i < 44 then 0x2F else if i < 45 then 0x1B else if i < 46 then 0x0B else if i < 47 then 0x4B
    else if i < 48 then 0x8B else if i < 49 then 0x2B else if i < 50 then 0x1B else if i < 51 then 0x0F
    else if i < 52 then 0x4F else if i < 53 then 0x8F else if i < 54 then 0x2F else if i < 55 then 0x1B
    else if i < 56 then 0x1F else if i < 57 then 0x5B else if i < 58 then 0x0B else if i < 59 then 0x4B
    else if i < 60 then 0x8B else if i < 61 then 0x2B else if i < 62 then 0x1B else if i < 63 then 0x5B
    else if i < 64 then 0x0F else if i < 65 then 0x4F else if i < 66 then 0x8F else if i < 67 then 0x2F
    else if i < 68 then 0x1B else if i < 69 then 0x1F else if i < 70 then 0x5F else 0x9B
  }

  ghost predicate Shipped(tables: seq<Table>) {
    |tables| == SHIPPED &&
    forall i :: 0 <= i < SHIPPED ==> tables[i].inMask == Chans(InCode(i)) && tables[i].outMask == Chans(OutCode(i))
  }

  predicate Within(a: Code, b: Code) { a & !b == 0 }

  lemma {:induction false} BitWithin(a: Code, b: Code, c: nat)
    requires Within(a, b) && InCodeOf(a, c)
    ensures InCodeOf(b, c)
  {
  }

  lemma {:induction false} WithinByBits(a: Code, b: Code)
    requires forall c: nat :: c < N && InCodeOf(a, c) ==> InCodeOf(b, c)
    ensures Within(a, b)
  {
    assert InCodeOf(a, 0) ==> InCodeOf(b, 0);
    assert InCodeOf(a, 2) ==> InCodeOf(b, 2);
    assert InCodeOf(a, 1) ==> InCodeOf(b, 1);
    assert InCodeOf(a, 7) ==> InCodeOf(b, 7);
    assert InCodeOf(a, 5) ==> InCodeOf(b, 5);
    assert InCodeOf(a, 8) ==> InCodeOf(b, 8);
    assert InCodeOf(a, 12) ==> InCodeOf(b, 12);
    assert InCodeOf(a, 10) ==> InCodeOf(b, 10);
  }

  lemma {:induction false} WithinIsSubset(a: Code, b: Code)
    ensures Chans(a) <= Chans(b) <==> Within(a, b)
  {
    hide Within, InCodeOf;
    if Within(a, b) {
      forall c | c in Chans(a)
        ensures c in Chans(b)
      {
        BitWithin(a, b, c);
      }
    }
    if Chans(a) <= Chans(b) {
      forall c: nat | c < N && InCodeOf(a, c)
        ensures InCodeOf(b, c)
      {
        assert c in Chans(a);
      }
      WithinByBits(a, b);
    }
  }

  lemma {:induction false} BitMeet(a: Code, b: Code, c: nat)
    requires InCodeOf(a, c) && InCodeOf(b, c)
    ensures InCodeOf(a & b, c)
  {
  }

  lemma {:induction false} Meet(s: set<nat>, a: Code, b: Code)
    requires s <= Chans(a) && s <= Chans(b)
    ensures s <= Chans(a & b)
  {
    hide InCodeOf;
    forall c | c in s
      ensures c in Chans(a & b)
    {
      assert c in Chans(a) && c in Chans(b);
      BitMeet(a, b, c);
    }
  }

  lemma {:induction false} SmallCodes()
    ensures Chans(0x00) == {LFE} && Chans(0x02) == {FC, LFE}
  {
    assert forall c: nat :: InCodeOf(0x00, c) <==> c == LFE;
    assert forall c: nat :: InCodeOf(0x02, c) <==> c == LFE || c == FC;
  }

  /** Two tables for every output mask, tried before the first table with that mask. */
  function Before(m: Code): (nat, nat) {
    match m
    case 0x06 => (0, 0)
    case 0x03 => (3, 3)
    case 0x09 => (6, 6)
    case 0x07 => (5, 5)
    case 0x0B => (8, 9)
    case 0x0F => (10, 11)
    case 0x4B => (14, 14)
    case 0x4F => (17, 18)
    case 0x8B => (21, 21)
    case 0x8F => (25, 27)
    case 0x1B => (36, 36)
    case 0x1F => (40, 44)
    case _ => (0, 0)
  }

  /** Table w takes mask m down and keeps what m shares with another mask. */
  predicate Serves(w: nat, t: nat, m: Code, kept: Code) {
    w < t && Within(m, InCode(w)) && !Within(m, OutCode(w)) && Within(kept, OutCode(w))
  }

  lemma {:induction false} EarlierServes(t: nat, u: nat)
    requires t <= u < SHIPPED
    requires var m := OutCode(t); Within(m, InCode(u)) && !Within(m, OutCode(u)) && m & OutCode(u) != 0
    ensures var m := OutCode(t);
            Serves(Before(m).0, t, m, m & OutCode(u)) || Serves(Before(m).1, t, m, m & OutCode(u))
  {
  }

  /** Input masks grow along the list of upmixes. */
  lemma {:induction false} UpmixesGrow(t: nat, u: nat)
    requires t < SHIPPED && u < SHIPPED && Within(InCode(t), OutCode(u))
    ensures t < u
  {
  }

  /** The first table with an input mask. */
  function Home(m: Code): nat {
    match m
    case 0x01 => 1
    case 0x03 => 2
    case 0x07 => 4
    case 0x09 => 6
    case 0x0B => 8
    case 0x0F => 10
    case 0x4B => 12
    case 0x4F => 15
    case 0x8B => 19
    case 0x8F => 23
    case 0x2B => 28
    case 0x2F => 32
    case 0x1B => 36
    case 0x1F => 40
    case 0x5B => 45
    case 0x5F => 50
    case 0x9B => 57
    case _ => 0
  }

  /** Every output mask but the smallest is an input mask further up. */
  lemma {:induction false} HomeIsEarlier(u: nat)
    requires u < SHIPPED
    ensures OutCode(u) == 0x02 || (Home(OutCode(u)) < u && Within(OutCode(u), InCode(Home(OutCode(u)))))
    ensures InCode(u) != 0 && OutCode(u) != 0
  {
  }
}
