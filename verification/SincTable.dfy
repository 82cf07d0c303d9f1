/**
 * What a lookup in the sinc table is worth. The table is read as a function on the real axis, linear
 * between its slots; the window sum then uses the value of this function at every distance.
 */
module SincTable {
  import opened Arith
  import opened FixedPoint
  import opened SincWindow

  /** What sinc_() divides by. */
  function Gain(k: Kernel): real { if k.scaling > 1.0 then k.scaling else 1.0 }

  /** Slot number of a phase, fractional part included. */
  function SlotOf(bits: nat, x: nat): real { (x * Pow2(bits)) as real / ONE as real }

  /** The slots lie on a straight line. */
  ghost predicate OnLine(table: seq<real>, a: real, b: real) {
    forall i :: 0 <= i < |table| ==> table[i] == a + b * i as real
  }

  predicate InTable(k: Kernel, x: nat) { k.interpBits <= 20 && TableIndex(k.interpBits, x) + 1 < |k.table| }

  lemma {:induction false} SincOf(k: Kernel, x: nat, fract: real)
    requires InTable(k, x)
    ensures var i := TableIndex(k.interpBits, x);
            Times(Sinc(k, x, fract), Gain(k)) == k.table[i] + Times(fract, k.table[i + 1] - k.table[i])
  {
  }

  /** The slot index and the fraction are the whole and the fractional part of the slot number. */
  lemma {:induction false} SlotParts(bits: nat, x: nat)
    requires bits <= 20
    ensures SlotOf(bits, x) == TableIndex(bits, x) as real + InterpFract(bits, x)
    ensures 0.0 <= InterpFract(bits, x) < 1.0
  {
    hide Pow2;
    var d, m := Pow2(20 - bits), Pow2(bits);
    Pow2Split(bits);
    var q := TableIndex(bits, x);
    QuotTimes(x, d, m);
    var r := (x * m) % ONE;
    assert (x * m) as real == q as real * ONE as real + r as real;
  }

  lemma {:induction false} QuotTimes(x: nat, d: nat, m: nat)
    requires d > 0 && m * d == ONE
    ensures x * m == Quot(x, d) * ONE + (x * m) % ONE
  {
    var q, r := x / d, x % d;
    assert x == d * q + r;
    assert x * m == q * (m * d) + r * m by {
      assert (d * q + r) * m == d * q * m + r * m;
      assert d * q * m == q * (m * d);
    }
    assert 0 <= r * m < ONE by {
      assert r * m <= (d - 1) * m;
      assert (d - 1) * m == ONE - m;
      assert m > 0;
    }
    WholeAndRest(q, r * m);
  }

  lemma {:induction false} WholeAndRest(q: nat, r: nat)
    requires r < ONE
    ensures (q * ONE + r) % ONE == r
  {
  }

  // ---------------------------------------------------------------- one lookup

  /** A lookup between two slots is worth something between them, at its share of the way. */
  lemma {:induction false} SincBetween(k: Kernel, x: nat, fract: real)
    requires InTable(k, x) && 0.0 <= fract <= 1.0
    ensures var i := TableIndex(k.interpBits, x);
            var lo, hi, v := k.table[i], k.table[i + 1], Times(Sinc(k, x, fract), Gain(k));
            && (lo <= v <= hi || hi <= v <= lo)
            && (v == lo <==> fract == 0.0 || lo == hi) && (v == hi <==> fract == 1.0 || lo == hi)
  {
    hide TableIndex, Sinc, Gain, Times;
    SincOf(k, x, fract);
    var i := TableIndex(k.interpBits, x);
    ShareOf(k.table[i + 1] - k.table[i], fract);
  }

  /** A share of a difference, of either sign. */
  lemma {:induction false} ShareOf(d: real, f: real)
    requires 0.0 <= f <= 1.0
    ensures var v := Times(f, d);
            && (if d >= 0.0 then 0.0 <= v <= d else d <= v <= 0.0)
            && (v == 0.0 <==> f == 0.0 || d == 0.0) && (v == d <==> f == 1.0 || d == 0.0)
  {
    assert (1.0 - f) * d == d - f * d;
  }

  /** On a line, a lookup is exact at every slot number. */
  lemma {:induction false} SincOnLine(k: Kernel, x: nat, fract: real, a: real, b: real)
    requires InTable(k, x) && OnLine(k.table, a, b)
    ensures Times(Sinc(k, x, fract), Gain(k)) == a + Times(b, TableIndex(k.interpBits, x) as real + fract)
  {
    hide TableIndex, Sinc, Gain;
    SincOf(k, x, fract);
    var i := TableIndex(k.interpBits, x);
    assert k.table[i + 1] - k.table[i] == b by {
      assert k.table[i] == a + b * i as real && k.table[i + 1] == a + b * (i + 1) as real;
      assert b * (i + 1) as real == b * i as real + b;
    }
    assert b * (i as real + fract) == b * i as real + fract * b;
  }

  /** With the fraction of its own phase, it is exact at the phase. */
  lemma {:induction false} SincExactOnLine(k: Kernel, x: nat, a: real, b: real)
    requires InTable(k, x) && OnLine(k.table, a, b)
    ensures Times(Sinc(k, x, InterpFract(k.interpBits, x)), Gain(k)) == a + Times(b, SlotOf(k.interpBits, x))
  {
    hide TableIndex, Sinc, Gain, InterpFract, SlotOf, OnLine, Pow2, Times;
    SincOnLine(k, x, InterpFract(k.interpBits, x), a, b);
    SlotParts(k.interpBits, x);
  }

  // ---------------------------------------------------------------- one position of the window

  /** The window is made of the positions within half of the time. */
  lemma {:induction false} WindowIs(half: U32, time: int, p: int)
    ensures FirstTap(half, time) <= p <= LastTap(half, time) <==> time - half <= p * ONE <= time + half
  {
  }

  /** Distance of a position from the time, in slots, without rounding. */
  function Distance(k: Kernel, time: int, p: int): real {
    SlotOf(k.interpBits, Abs(time - p * ONE) * k.step) / ONE as real
  }

  /** The phase loses less than one unit, which is at most one slot. */
  lemma {:induction false} PhaseNear(k: Kernel, time: int, p: int)
    requires k.interpBits <= 20
    ensures -1.0 <= SlotOf(k.interpBits, Phase(k.step, time, p)) - Distance(k, time, p) <= 1.0
  {
    hide Pow2;
    var m, u := Pow2(k.interpBits), (time - p * ONE) * k.step;
    Pow2Split(k.interpBits);
    assert m <= ONE by {
      assert m * Pow2(20 - k.interpBits) >= m * 1;
    }
    var x, y := Phase(k.step, time, p), Abs(time - p * ONE) * k.step;
    assert y == Abs(u) by {
      AbsTimes(time - p * ONE, k.step);
    }
    assert -ONE < x * ONE - y < ONE;
    ScaledDifference(x, y, m);
  }

  lemma {:induction false} AbsTimes(a: int, b: nat)
    ensures Abs(a) * b == Abs(a * b)
  {
  }

  lemma {:induction false} ScaledDifference(x: nat, y: nat, m: nat)
    requires 0 < m <= ONE && -ONE < x * ONE - y < ONE
    ensures -1.0 <= (x * m) as real / ONE as real - (y * m) as real / ONE as real / ONE as real <= 1.0
  {
    var one, d := ONE as real, (x * ONE - y) as real;
    var e := (x * m) as real / one - (y * m) as real / one / one;
    assert (x * m) as real == x as real * m as real && (y * m) as real == y as real * m as real;
    assert d == x as real * one - y as real;
    assert e * (one * one) == d * m as real by {
      assert (x * m) as real / one * (one * one) == x as real * m as real * one;
      assert (y * m) as real / one / one * (one * one) == y as real * m as real;
    }
    assert -one * one <= d * m as real <= one * one by {
      ShareBound(d, m as real, one);
    }
    UnitBound(e, one * one);
  }

  lemma {:induction false} UnitBound(e: real, s: real)
    requires s > 0.0 && -s <= e * s <= s
    ensures -1.0 <= e <= 1.0
  {
  }

  lemma {:induction false} ShareBound(d: real, m: real, one: real)
    requires -one <= d <= one && 0.0 <= m <= one
    ensures -one * one <= d * m <= one * one
  {
    assert (one - d) * m >= 0.0 && (one + d) * m >= 0.0;
    assert one * m <= one * one;
  }

  /** The lookup made for a position of the window that the table covers. */
  lemma {:induction false} WeightIs(k: Kernel, time: int, p: int)
    requires k.Valid() && k.FitsTable() && time - k.half <= p * ONE <= time + k.half
    ensures var x := Phase(k.step, time, p);
            InTable(k, x) && exists f: real :: 0.0 <= f < 1.0 && Weight(k, time, p) == Sinc(k, x, f)
  {
    hide Sinc, Pow2, Phase, TableIndex, FirstTap, Kernel.Valid, Kernel.FitsTable, InterpFract;
    WindowLookup(k, time, p);
    KernelBits(k);
    var anchor := if p * ONE <= time then FirstTap(k.half, time) else FloorOf(time) + 1;
    var f := InterpFract(k.interpBits, Phase(k.step, time, anchor));
    SlotParts(k.interpBits, Phase(k.step, time, anchor));
    assert Weight(k, time, p) == Sinc(k, Phase(k.step, time, p), f);
  }

  /** Whatever the table: the weight of a position lies between the two slots around its phase. */
  lemma {:induction false} WeightBetween(k: Kernel, time: int, p: int)
    requires k.Valid() && k.FitsTable() && time - k.half <= p * ONE <= time + k.half
    ensures var x := Phase(k.step, time, p);
            && InTable(k, x)
            && var i, v := TableIndex(k.interpBits, x), Times(Weight(k, time, p), Gain(k));
               k.table[i] <= v <= k.table[i + 1] || k.table[i + 1] <= v <= k.table[i]
  {
    hide Sinc, Pow2, Phase, TableIndex, Kernel.Valid, Kernel.FitsTable, Weight, Gain, Times;
    WeightIs(k, time, p);
    var x := Phase(k.step, time, p);
    var f: real :| 0.0 <= f < 1.0 && Weight(k, time, p) == Sinc(k, x, f);
    SincBetween(k, x, f);
  }

  lemma {:induction false} KernelBits(k: Kernel)
    requires k.Valid()
    ensures k.interpBits <= 20
  {
  }

  /** On a line, the weight of a position is the line at its distance, up to two slots. */
  lemma {:induction false} WeightOnLine(k: Kernel, time: int, p: int, a: real, b: real)
    requires k.Valid() && k.FitsTable() && time - k.half <= p * ONE <= time + k.half
    requires OnLine(k.table, a, b)
    ensures Near(Times(Weight(k, time, p), Gain(k)), a + Times(b, Distance(k, time, p)), 2.0 * Size(b))
  {
    hide Sinc, Pow2, Phase, TableIndex, FirstTap, Kernel.Valid, Kernel.FitsTable, InterpFract, Weight, Gain, Distance,
         SlotOf, Times;
    WeightIs(k, time, p);
    KernelBits(k);
    var x := Phase(k.step, time, p);
    var f: real :| 0.0 <= f < 1.0 && Weight(k, time, p) == Sinc(k, x, f);
    SincOnLine(k, x, f, a, b);
    SlotParts(k.interpBits, x);
    PhaseNear(k, time, p);
    SlopeNear(b, TableIndex(k.interpBits, x) as real + f, Distance(k, time, p));
  }

  // ---------------------------------------------------------------- the whole window

  function Size(x: real): real { if x < 0.0 then -x else x }

  predicate Near(x: real, y: real, e: real) { -e <= x - y <= e }

  lemma {:induction false} SlopeNear(b: real, x: real, y: real)
    requires Near(x, y, 2.0)
    ensures Near(Times(b, x), Times(b, y), 2.0 * Size(b))
  {
    SizeBound(b, x - y, 2.0);
    assert b * x - b * y == b * (x - y);
  }

  lemma {:induction false} SizeBound(t: real, d: real, e: real)
    requires -e <= d <= e
    ensures -Times(e, Size(t)) <= Times(t, d) <= Times(e, Size(t))
  {
    var n := Size(t);
    ProductSign(e - d, n);
    ProductSign(e + d, n);
    assert (e - d) * n == e * n - d * n && (e + d) * n == e * n + d * n;
  }

  lemma {:induction false} ProductSign(x: real, y: real)
    requires x >= 0.0 && y >= 0.0
    ensures x * y >= 0.0
  {
  }

  /** A sum whose terms are close, each in proportion to a sample, is as close in proportion to the samples. */
  lemma {:induction false} SumNear(f: int -> real, g: int -> real, h: int -> real, gain: real, e: real, lo: int, hi: int)
    requires forall p :: lo <= p < hi ==> Near(Times(f(p), gain), g(p), Times(e, h(p)))
    ensures Near(Times(SumRange(f, lo, hi), gain), SumRange(g, lo, hi), Times(e, SumRange(h, lo, hi)))
    decreases hi - lo
  {
    if lo < hi {
      SumNear(f, g, h, gain, e, lo, hi - 1);
      var p := hi - 1;
      assert Near(Times(f(p), gain), g(p), Times(e, h(p)));
      assert (SumRange(f, lo, p) + f(p)) * gain == SumRange(f, lo, p) * gain + f(p) * gain;
      assert e * (SumRange(h, lo, p) + h(p)) == e * SumRange(h, lo, p) + e * h(p);
    }
  }

  /** Samples weighted with a line at their distance. */
  function LineWeighted(k: Kernel, s: seq<real>, n: nat, ch: nat, time: int, a: real, b: real): int -> real {
    p => Times(Tap(s, n, ch, p), a + Times(b, Distance(k, time, p)))
  }

  function Loudness(s: seq<real>, n: nat, ch: nat): int -> real { p => Size(Tap(s, n, ch, p)) }

  lemma {:induction false} TimesNear(t: real, w: real, gain: real, y: real, e: real)
    requires Near(Times(w, gain), y, e) && e >= 0.0
    ensures Near(Times(t * w, gain), Times(t, y), Times(e, Size(t)))
  {
    SizeBound(t, w * gain - y, e);
    assert t * w * gain - t * y == t * (w * gain - y);
  }

  lemma {:induction false} TermOnLine(k: Kernel, s: seq<real>, n: nat, ch: nat, time: int, a: real, b: real, p: int)
    requires k.Valid() && k.FitsTable() && OnLine(k.table, a, b)
    requires FirstTap(k.half, time) <= p <= LastTap(k.half, time)
    ensures Near(Times(Weighted(k, s, n, ch, time)(p), Gain(k)), LineWeighted(k, s, n, ch, time, a, b)(p),
                 Times(2.0 * Size(b), Loudness(s, n, ch)(p)))
  {
    hide Kernel.Valid, Kernel.FitsTable, Weight, Gain, Distance, OnLine, Tap, Near, Times, Size;
    WindowIs(k.half, time, p);
    WeightOnLine(k, time, p, a, b);
    var t, w, y := Tap(s, n, ch, p), Weight(k, time, p), a + Times(b, Distance(k, time, p));
    SizePositive(b);
    TimesNear(t, w, Gain(k), y, 2.0 * Size(b));
    var f, g, h := Weighted(k, s, n, ch, time)(p), LineWeighted(k, s, n, ch, time, a, b)(p), Loudness(s, n, ch)(p);
    assert f == t * w;
    assert g == Times(t, y);
    assert h == Size(t);
    assert Near(Times(f, Gain(k)), g, Times(2.0 * Size(b), h));
  }

  lemma {:induction false} SizePositive(b: real)
    ensures 2.0 * Size(b) >= 0.0
  {
  }

  /**
   * With a table on a line, an output sample is the sum of the window's samples, each times the line
   * at its own distance from the time, up to two slots for every sample. A constant table is exact.
   */
  lemma {:induction false} InterpolateOnLine(k: Kernel, s: seq<real>, n: nat, ch: nat, time: int, a: real, b: real)
    requires k.Valid() && k.FitsTable() && OnLine(k.table, a, b)
    ensures var lo, hi := FirstTap(k.half, time), LastTap(k.half, time) + 1;
            Near(Times(Interpolate(k, s, n, ch, time), Gain(k)),
                 SumRange(LineWeighted(k, s, n, ch, time, a, b), lo, hi),
                 Times(2.0 * Size(b), SumRange(Loudness(s, n, ch), lo, hi)))
  {
    hide Kernel.Valid, Kernel.FitsTable, Gain, SumRange, OnLine, Near, Size, Times, Weighted, LineWeighted, Loudness,
         FirstTap, LastTap;
    var lo, hi := FirstTap(k.half, time), LastTap(k.half, time) + 1;
    var f, g, h := Weighted(k, s, n, ch, time), LineWeighted(k, s, n, ch, time, a, b), Loudness(s, n, ch);
    forall p | lo <= p < hi
      ensures Near(Times(f(p), Gain(k)), g(p), Times(2.0 * Size(b), h(p)))
    {
      TermOnLine(k, s, n, ch, time, a, b, p);
    }
    SumNear(f, g, h, Gain(k), 2.0 * Size(b), lo, hi);
  }
}
