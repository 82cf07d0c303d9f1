/**
 * The interpolation window of the built-in resampler, stated directly: one weighted
 * sum over all integer positions inside [time - half, time + half] of a contiguous
 * signal. WindowWalk.dfy shows that the three-frame pointer walk computes it.
 *
 * Times are fixed-point numbers counted from the first sample of the signal.
 */
module SincWindow {
  import opened Arith
  import opened FixedPoint

  /** What set_scaling() and the constructor leave behind for resample_(). */
  datatype Kernel = Kernel(
    windowSize: nat,     // window_size_
    interpBits: nat,     // window_interp_bits_
    table: seq<real>,    // sinc_table_
    step: U32,           // qt_sinc_step_
    half: U32,           // qt_half_window_size_
    scaling: real        // scaling_
  ) {
    ghost predicate Valid() {
      && interpBits <= 20
      && windowSize < 4095
      && |table| == windowSize * Pow2(interpBits) + 2
    }

    /** Half window times sinc step stays within the table, up to the slack of its last slots. */
    ghost predicate FitsTable() {
      interpBits <= 20 && CeilOf(half * step) < windowSize * ONE + Pow2(20 - interpBits)
    }
  }

  /** Distance |time - p| in units of the sinc table, rounded toward the left neighbour. */
  function Phase(step: U32, time: int, p: int): nat {
    Abs(FloorOf((time - p * ONE) * step))
  }

  function FirstTap(half: U32, time: int): int { CeilOf(time - half) }

  function LastTap(half: U32, time: int): int { FloorOf(time + half) }

  /** fractional(x << window_interp_bits_) */
  function InterpFract(bits: nat, x: nat): real {
    ((x * Pow2(bits)) % ONE) as real / ONE as real
  }

  /** x >> (FRACT_BIT_COUNT - window_interp_bits_) */
  function TableIndex(bits: nat, x: nat): nat
    requires bits <= 20
  {
    Quot(x, Pow2(20 - bits))
  }

  /** sinc_(): linear interpolation between two neighbouring table slots. */
  function Sinc(k: Kernel, x: nat, fract: real): real
    requires k.interpBits <= 20
    requires TableIndex(k.interpBits, x) + 1 < |k.table|
  {
    var index := TableIndex(k.interpBits, x);
    var hl := k.table[index];
    var hh := k.table[index + 1];
    var result := hl + fract * (hh - hl);
    if k.scaling > 1.0 then result / k.scaling else result
  }

  /** Coefficient of position p in the window centred at time. */
  function Weight(k: Kernel, time: int, p: int): real {
    var x := Phase(k.step, time, p);
    // The interpolation fraction is taken once per side of the window.
    var anchor := if p * ONE <= time then FirstTap(k.half, time) else FloorOf(time) + 1;
    var fract := InterpFract(k.interpBits, Phase(k.step, time, anchor));
    if k.interpBits <= 20 && TableIndex(k.interpBits, x) + 1 < |k.table|
    then Sinc(k, x, fract)
    else 0.0
  }

  /** Sample of channel ch at position p of an interleaved signal. */
  function Tap(s: seq<real>, n: nat, ch: nat, p: int): real {
    if 0 <= p * n + ch < |s| then s[p * n + ch] else 0.0
  }

  /** f(lo) + f(lo + 1) + ... + f(hi - 1), accumulated in this order. */
  function SumRange(f: int -> real, lo: int, hi: int): real
    decreases hi - lo
  {
    if hi <= lo then 0.0 else SumRange(f, lo, hi - 1) + f(hi - 1)
  }

  /** Weighted samples of one channel around a time. */
  function Weighted(k: Kernel, s: seq<real>, n: nat, ch: nat, time: int): int -> real {
    p => Tap(s, n, ch, p) * Weight(k, time, p)
  }

  /** The reference value of one output sample. */
  function Interpolate(k: Kernel, s: seq<real>, n: nat, ch: nat, time: int): real {
    SumRange(Weighted(k, s, n, ch, time), FirstTap(k.half, time), LastTap(k.half, time) + 1)
  }

  // ---------------------------------------------------------------- phase

  lemma {:induction false} PhaseNext(step: U32, time: int, p: int)
    ensures FloorOf((time - (p + 1) * ONE) * step) == FloorOf((time - p * ONE) * step) - step
  {
    var u := (time - p * ONE) * step;
    assert (time - (p + 1) * ONE) * step == u - ONE * step;
  }

  /** The descending phase drops below one step exactly at the last position not after time. */
  lemma {:induction false} PhaseStops(step: U32, time: int, p: int)
    requires step > 0
    requires p * ONE <= time
    ensures FloorOf((time - p * ONE) * step) >= 0
    ensures FloorOf((time - p * ONE) * step) >= step <==> time - p * ONE >= ONE
  {
    var u := time - p * ONE;
    assert u * step >= 0;
    if u >= ONE {
      assert u * step >= ONE * step;
    } else {
      assert u * step <= (ONE - 1) * step;
    }
  }

  lemma {:induction false} PhaseBound(step: U32, half: U32, time: int, p: int)
    requires time - half <= p * ONE <= time + half
    ensures Phase(step, time, p) <= CeilOf(half * step)
  {
    var u := time - p * ONE;
    assert u * step <= half * step;
    assert -(u * step) <= half * step by {
      assert (-u) * step <= half * step;
    }
    assert FloorOf(u * step) <= CeilOf(half * step);
    assert -FloorOf(u * step) <= CeilOf(half * step);
  }

  /** Every lookup made for a position of the window hits the table, neighbour included. */
  lemma {:induction false} LookupInTable(k: Kernel, x: nat)
    requires k.Valid()
    requires x < k.windowSize * ONE + Pow2(20 - k.interpBits)
    ensures TableIndex(k.interpBits, x) + 1 < |k.table|
    ensures x < WRAP
  {
    hide Pow2;
    var d, i := Pow2(20 - k.interpBits), Pow2(k.interpBits);
    Pow2Split(k.interpBits);
    LookupBound(k.windowSize, i, d, x);
  }

  lemma {:induction false} LookupBound(size: nat, interp: nat, d: nat, x: nat)
    requires size < 4095 && interp > 0 && d > 0 && interp * d == ONE
    requires x < size * ONE + d
    ensures Quot(x, d) <= size * interp
    ensures x < WRAP
  {
    var m := size * interp;
    assert m * d == size * (interp * d);
    QuotBound(x, d, m);
    assert d <= interp * d;
  }

  lemma {:induction false} WindowLookup(k: Kernel, time: int, p: int)
    requires k.Valid() && k.FitsTable()
    requires time - k.half <= p * ONE <= time + k.half
    ensures Phase(k.step, time, p) < WRAP
    ensures TableIndex(k.interpBits, Phase(k.step, time, p)) + 1 < |k.table|
  {
    PhaseBound(k.step, k.half, time, p);
    LookupInTable(k, Phase(k.step, time, p));
  }

  // ---------------------------------------------------------------- translation

  lemma {:induction false} WeightShift(k: Kernel, time: int, p: int, m: int)
    ensures Weight(k, time + m * ONE, p + m) == Weight(k, time, p)
  {
    assert time + m * ONE - (p + m) * ONE == time - p * ONE;
    assert FirstTap(k.half, time + m * ONE) == FirstTap(k.half, time) + m;
    assert FloorOf(time + m * ONE) == FloorOf(time) + m;
    var a := FirstTap(k.half, time);
    assert time + m * ONE - (a + m) * ONE == time - a * ONE;
    var b := FloorOf(time) + 1;
    assert time + m * ONE - (b + m) * ONE == time - b * ONE;
    assert (p + m) * ONE <= time + m * ONE <==> p * ONE <= time;
  }

  lemma {:induction false} TapShift(whole: seq<real>, part: seq<real>, n: nat, ch: nat, m: nat, p: nat)
    requires ch < n
    requires m * n + |part| <= |whole|
    requires part == whole[m * n .. m * n + |part|]
    requires (p + 1) * n <= |part|
    ensures Tap(whole, n, ch, p + m) == Tap(part, n, ch, p)
  {
    var i := p * n + ch;
    assert p * n >= 0 && i < |part|;
    assert (p + m) * n + ch == m * n + i;
    assert whole[m * n + i] == part[i];
  }

  lemma {:induction false} SumRangeShift(f: int -> real, g: int -> real, m: int, lo: int, hi: int)
    requires forall p :: lo <= p < hi ==> g(p + m) == f(p)
    ensures SumRange(g, lo + m, hi + m) == SumRange(f, lo, hi)
    decreases hi - lo
  {
    if lo < hi {
      SumRangeShift(f, g, m, lo, hi - 1);
      assert hi + m - 1 == (hi - 1) + m;
      assert g((hi - 1) + m) == f(hi - 1);
    }
  }

  /** part is what the signal whole holds from position m on. */
  ghost predicate CutAt(whole: seq<real>, part: seq<real>, n: nat, m: nat) {
    && m * n + |part| <= |whole|
    && part == whole[m * n .. m * n + |part|]
  }

  lemma {:induction false} WeightedShift(
    k: Kernel, whole: seq<real>, part: seq<real>, n: nat, ch: nat, m: nat, time: int, p: nat, hi: nat)
    requires ch < n && p < hi
    requires CutAt(whole, part, n, m)
    requires hi * n <= |part|
    ensures Weighted(k, whole, n, ch, time + m * ONE)(p + m) == Weighted(k, part, n, ch, time)(p)
  {
    hide Weight, Tap;
    MulMono(p + 1, hi, n);
    TapShift(whole, part, n, ch, m, p);
    WeightShift(k, time, p, m);
  }

  lemma {:induction false} TapsShift(half: U32, time: int, m: int)
    ensures FirstTap(half, time + m * ONE) == FirstTap(half, time) + m
    ensures LastTap(half, time + m * ONE) == LastTap(half, time) + m
  {
  }

  /** A sum over window positions of a cut of the signal is the same sum over the whole signal, shifted. */
  lemma {:induction false} WindowSumShift(
    k: Kernel, whole: seq<real>, part: seq<real>, n: nat, ch: nat, m: nat, time: int, hi: nat)
    requires ch < n
    requires CutAt(whole, part, n, m)
    requires 0 <= FirstTap(k.half, time) && hi * n <= |part|
    ensures SumRange(Weighted(k, whole, n, ch, time + m * ONE), FirstTap(k.half, time + m * ONE), hi + m)
         == SumRange(Weighted(k, part, n, ch, time), FirstTap(k.half, time), hi)
  {
    hide Weighted, SumRange, CutAt;
    var lo := FirstTap(k.half, time);
    var f, g := Weighted(k, part, n, ch, time), Weighted(k, whole, n, ch, time + m * ONE);
    forall p | lo <= p < hi
      ensures g(p + m) == f(p)
    {
      WeightedShift(k, whole, part, n, ch, m, time, p, hi);
    }
    SumRangeShift(f, g, m, lo, hi);
    TapsShift(k.half, time, m);
  }

  /**
   * A window that lies inside a cut of a longer signal has the same value there and
   * in the whole signal, at the correspondingly shifted time.
   */
  lemma {:induction false} InterpolateShift(
    k: Kernel, whole: seq<real>, part: seq<real>, n: nat, ch: nat, m: nat, time: int)
    requires ch < n
    requires CutAt(whole, part, n, m)
    requires 0 <= FirstTap(k.half, time)
    requires (LastTap(k.half, time) + 1) * n <= |part|
    ensures Interpolate(k, whole, n, ch, time + m * ONE) == Interpolate(k, part, n, ch, time)
  {
    hide Weighted, SumRange, CutAt;
    WindowSumShift(k, whole, part, n, ch, m, time, LastTap(k.half, time) + 1);
    TapsShift(k.half, time, m);
  }
}
