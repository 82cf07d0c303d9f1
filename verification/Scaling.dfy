/**
 * The numbers that set_scaling() derives from a scaling factor, in exact arithmetic:
 * which factors it accepts, and what the resulting half window and sinc step satisfy.
 */
module Scaling {
  import opened Arith
  import opened FixedPoint
  import opened SincWindow
  import opened WindowWalk

  const CUTOFF: real := 0.9

  /** float_to_fixedpoint(), with exact arithmetic. */
  function ToFixed(x: real): int { (x * ONE as real).Floor }

  function HalfFor(windowSize: nat, scaling: real): int {
    if scaling > 1.0 then ToFixed(windowSize as real / CUTOFF * scaling) else ToFixed(windowSize as real / CUTOFF)
  }

  function StepFor(scaling: real): int
    requires scaling > 0.0
  {
    if scaling > 1.0 then ToFixed(CUTOFF / scaling) else ToFixed(CUTOFF)
  }

  /** The scaling factors that set_scaling() lets through. */
  predicate Accepts(windowSize: nat, frameSize: nat, scaling: real)
  {
    && scaling > 0.0
    && windowSize as real * scaling <= frameSize as real - 1.0
    && (scaling > 1.0 ==> HalfFor(windowSize, scaling) < frameSize * ONE)
  }

  lemma {:induction false} FloorProduct(a: real, b: real, c: int)
    requires a >= 0.0 && b >= 0.0 && a * b <= c as real
    ensures a.Floor * b.Floor <= c
  {
    var x, y := a.Floor, b.Floor;
    assert 0.0 <= x as real <= a && 0.0 <= y as real <= b;
    assert x as real * y as real <= a * y as real;
    assert a * y as real <= a * b;
    assert (x * y) as real == x as real * y as real;
  }

  lemma {:induction false} BelowInReals(a: int, b: int)
    requires (a as real) < b as real
    ensures a < b
  {
  }

  lemma {:induction false} FloorProductAbove(a: real, b: real, c: int)
    requires a >= 0.0 && b >= 0.0 && a * b >= c as real
    ensures c < (a.Floor + 1) * (b.Floor + 1)
  {
    var x, y := a.Floor + 1, b.Floor + 1;
    Enlarge(a, b, x as real, y as real);
    RealProduct(x, y);
    BelowInReals(c, x * y);
  }

  lemma {:induction false} RealProduct(x: int, y: int)
    ensures (x * y) as real == x as real * y as real
  {
  }

  lemma {:induction false} Enlarge(a: real, b: real, u: real, v: real)
    requires 0.0 <= a < u && 0.0 <= b < v
    ensures a * b < u * v
  {
    assert a * b <= a * v && (u - a) * v > 0.0;
  }

  /** Half window and sinc step are rounded down, so their product never exceeds the table, and only just not. */
  lemma {:induction false} ScaledKernelFits(windowSize: nat, scaling: real)
    requires scaling > 0.0
    ensures HalfFor(windowSize, scaling) * StepFor(scaling) <= windowSize * ONE * ONE
            < (HalfFor(windowSize, scaling) + 1) * (StepFor(scaling) + 1)
  {
    hide HalfFor, StepFor;
    var s := if scaling > 1.0 then scaling else 1.0;
    var a, b := ExactHalf(windowSize as real, s), ExactStep(s);
    RoundedDown(windowSize, scaling);
    ExactProduct(windowSize as real, s);
    WholeTable(windowSize);
    FloorProduct(a, b, windowSize * ONE * ONE);
    FloorProductAbove(a, b, windowSize * ONE * ONE);
  }

  /** Half window and sinc step before they are rounded. */
  function ExactHalf(w: real, s: real): real { w / CUTOFF * s * ONE as real }

  function ExactStep(s: real): real
    requires s > 0.0
  {
    CUTOFF / s * ONE as real
  }

  lemma {:induction false} RoundedDown(windowSize: nat, scaling: real)
    requires scaling > 0.0
    ensures var s := if scaling > 1.0 then scaling else 1.0;
            && HalfFor(windowSize, scaling) == ExactHalf(windowSize as real, s).Floor
            && StepFor(scaling) == ExactStep(s).Floor
  {
  }

  lemma {:induction false} ExactProduct(w: real, s: real)
    requires s > 0.0 && w >= 0.0
    ensures ExactHalf(w, s) >= 0.0 && ExactStep(s) >= 0.0
    ensures ExactHalf(w, s) * ExactStep(s) == w * ONE as real * ONE as real
  {
    var one := ONE as real;
    var q, r := w / CUTOFF, CUTOFF / s;
    assert q * CUTOFF == w && r * s == CUTOFF && q >= 0.0 && r >= 0.0;
    assert q * s * one * (r * one) == (q * (r * s)) * (one * one);
  }

  lemma {:induction false} WholeTable(windowSize: nat)
    ensures (windowSize * ONE * ONE) as real == windowSize as real * ONE as real * ONE as real
  {
  }

  lemma {:induction false} ToFixedMono(x: real, y: real)
    requires x <= y
    ensures ToFixed(x) <= ToFixed(y)
  {
    assert x * ONE as real <= y * ONE as real;
  }

  lemma {:induction false} ToFixedInt(n: int)
    ensures ToFixed(n as real) == n * ONE
  {
    assert n as real * ONE as real == (n * ONE) as real;
  }

  lemma {:induction false} MulDivMono(a: real, b: real)
    requires 0.0 <= a <= b
    ensures a <= a / CUTOFF <= b / CUTOFF <= b * 1.2
  {
  }

  lemma {:induction false} ScaleMono(a: real, b: real, x: real)
    requires a <= b && x >= 0.0
    ensures a * x <= b * x
  {
  }

  lemma {:induction false} StepBounds(scaling: real)
    requires 1.0 < scaling <= 3685.0
    ensures 0 < ToFixed(CUTOFF / scaling) <= ONE
  {
    var r := CUTOFF / scaling;
    assert r * scaling == CUTOFF;
    assert r > 0.0;
    ScaleMono(1.0, scaling, r);
    ScaleMono(scaling, 3685.0, r);
    assert r >= 0.0001;
    ToFixedInt(1);
    ToFixedMono(r, 1.0);
    ToFixedMono(0.0001, r);
    assert ToFixed(0.0001) == 104;
  }

  lemma {:induction false} HalfBounds(windowSize: nat, scaling: real)
    requires 1 <= windowSize
    requires scaling > 1.0 && windowSize as real * scaling <= 3685.0
    ensures ONE <= HalfFor(windowSize, scaling) < WRAP
  {
    var w := windowSize as real;
    var x := w / CUTOFF * scaling;
    assert x == (w * scaling) / CUTOFF;
    ScaleMono(1.0, w, scaling);
    MulDivMono(w * scaling, 3685.0);
    assert 3685.0 / CUTOFF <= 4095.0;
    ToFixedInt(1);
    ToFixedInt(4095);
    ToFixedMono(1.0, x);
    ToFixedMono(x, 4095.0);
  }

  lemma {:induction false} PlainHalfBounds(windowSize: nat)
    requires 1 <= windowSize <= 1024
    ensures ONE <= ToFixed(windowSize as real / CUTOFF) < 1230 * ONE
  {
    var x := windowSize as real / CUTOFF;
    MulDivMono(windowSize as real, 1024.0);
    ToFixedInt(1);
    ToFixedInt(1229);
    ToFixedMono(1.0, x);
    ToFixedMono(x, 1229.0);
  }

  /** Longer frames admit factors whose half window overflows the conversion to fixed point. */
  const MAX_FRAME := 3686

  lemma {:induction false} SmallStep(windowSize: nat, scaling: real)
    requires windowSize >= 16
    requires scaling > 0.0 && windowSize as real * scaling <= 3685.0
    ensures ToFixed(scaling) <= 231 * ONE
  {
    hide ToFixed;
    ScaleMono(16.0, windowSize as real, scaling);
    ToFixedInt(231);
    ToFixedMono(scaling, 231.0);
  }

  /** Accepted factors give a usable kernel whose numbers stay below 2^32. */
  lemma {:induction false} ScaledBounds(windowSize: nat, frameSize: nat, scaling: real)
    requires 1 <= windowSize <= 1024 && 0 < frameSize <= MAX_FRAME
    requires scaling > 0.0 && windowSize as real * scaling <= frameSize as real - 1.0
    ensures 0 < StepFor(scaling) <= ONE
    ensures ONE <= HalfFor(windowSize, scaling) < WRAP
    ensures scaling <= 1.0 ==> HalfFor(windowSize, scaling) < 1230 * ONE
    ensures 0 <= ToFixed(scaling) < frameSize * ONE
    ensures windowSize >= 16 ==> frameSize * ONE + ToFixed(scaling) <= WRAP
  {
    hide ToFixed;
    StepRange(windowSize, frameSize, scaling);
    if windowSize >= 16 {
      SmallStep(windowSize, scaling);
    }
    if scaling > 1.0 {
      HalfBounds(windowSize, scaling);
      StepBounds(scaling);
    } else {
      PlainHalfBounds(windowSize);
      PlainStep();
    }
  }

  lemma {:induction false} PlainStep()
    ensures ToFixed(CUTOFF) == 943718
  {
  }

  lemma {:induction false} StepRange(windowSize: nat, frameSize: nat, scaling: real)
    requires 1 <= windowSize && 0 < frameSize
    requires scaling > 0.0 && windowSize as real * scaling <= frameSize as real - 1.0
    ensures scaling <= frameSize as real - 1.0
    ensures 0 <= ToFixed(scaling) < frameSize * ONE
  {
    hide ToFixed;
    ScaleMono(1.0, windowSize as real, scaling);
    var top := (frameSize - 1) as real;
    assert scaling <= top;
    ToFixedInt(0);
    ToFixedInt(frameSize - 1);
    ToFixedMono(0.0, scaling);
    ToFixedMono(scaling, top);
  }

  /** The two bounds checks made before a factor above 1 is accepted. */
  lemma {:induction false} OutOfBoundsCheck(frameSize: nat, half: U32)
    requires 0 < frameSize < 4096
    ensures (ToSize(QCeil(Sub32(frameSize * ONE, half))) > frameSize || ToSize(QFloor(half)) + 1 > frameSize)
            <==> half >= frameSize * ONE
  {
    if half < frameSize * ONE {
      assert Sub32(frameSize * ONE, half) == frameSize * ONE - half;
      CeilIndex(frameSize * ONE - half);
    }
  }

  /**
   * An accepted factor rules out every index panic exactly when it is above 1 or the
   * unscaled half window fits into a frame: for other factors set_scaling() skips the check.
   */
  lemma {:induction false} AcceptedNeverPanicsIff(windowSize: nat, frameSize: nat, scaling: real)
    requires 1 <= windowSize && 0 < frameSize < 4096
    requires Accepts(windowSize, frameSize, scaling) && HalfFor(windowSize, scaling) < WRAP
    ensures 0 <= HalfFor(windowSize, scaling)
    ensures (forall sample: U32 :: sample < frameSize * ONE ==>
               !IndexPanic(frameSize, TapRanges(frameSize, HalfFor(windowSize, scaling), sample)))
            <==> scaling > 1.0 || HalfFits(frameSize, HalfFor(windowSize, 1.0))
  {
    HalfPositive(windowSize, scaling);
    NeverPanicsIff(frameSize, HalfFor(windowSize, scaling));
  }

  /**
   * 192 kHz to 8 kHz with the high profile, 25 percent faster: accepted with frames of 2304 samples.
   * The 67th output sample lacks everything right of the centre of its window.
   */
  lemma {:induction false} LongFrameLosesRightHalf(k: Kernel, s: seq<real>, n: nat, ch: nat)
    requires k.half == HalfFor(64, 30.0)
    ensures Accepts(64, 2304, 30.0) && 66 * ToFixed(30.0) == 1980 * ONE
    ensures Expected(k, s, n, ch, 2304, 1980 * ONE) == Value(LeftHalf(k, s, n, ch, (2304 + 1980) * ONE))
  {
    hide LeftHalf;
    assert ToFixed(30.0) == 30 * ONE;
    assert HalfFor(64, 30.0) == 2236962133;
  }

  lemma {:induction false} HalfPositive(windowSize: nat, scaling: real)
    requires scaling > 0.0
    ensures HalfFor(windowSize, scaling) >= 0
  {
    var x := windowSize as real / CUTOFF;
    assert x >= 0.0;
    ScaleMono(0.0, x, scaling);
    ToFixedInt(0);
    ToFixedMono(0.0, x);
    ToFixedMono(0.0, x * scaling);
  }

  /** 44100 Hz to 96000 Hz with the medium profile is accepted, and the first output sample panics. */
  lemma {:induction false} UpsamplingPanics()
    ensures var scaling := 44100.0 / 96000.0;
            && Accepts(32, 23, scaling)
            && HalfFor(32, scaling) == 37282702
            && IndexPanic(23, TapRanges(23, 37282702, 0))
  {
    PanicsExactly(23, 37282702, 0);
  }

  /** The interpolation fraction is the same at neighbouring positions only for special steps. */
  lemma {:induction false} FractionStaysIff(bits: nat, step: U32, x: nat)
    requires bits <= 20
    ensures InterpFract(bits, x + step) == InterpFract(bits, x) <==> (step * Pow2(bits)) % ONE == 0
  {
    hide Pow2;
    var m := Pow2(bits);
    FractionOfSum(x * m, step * m);
    assert (x + step) * m == x * m + step * m;
  }

  lemma {:induction false} FractionOfSum(a: nat, b: nat)
    ensures ((a + b) % ONE) as real / ONE as real == (a % ONE) as real / ONE as real <==> b % ONE == 0
  {
    SumMod(a, b);
    SameQuotient((a + b) % ONE, a % ONE);
  }

  lemma {:induction false} SumMod(a: nat, b: nat)
    ensures (a + b) % ONE == a % ONE <==> b % ONE == 0
  {
    assert a == ONE * (a / ONE) + a % ONE && a + b == ONE * ((a + b) / ONE) + (a + b) % ONE;
  }

  lemma {:induction false} SameQuotient(u: int, v: int)
    ensures u as real / ONE as real == v as real / ONE as real <==> u == v
  {
  }

  /** The step used for factors up to 1 is not special in any profile. */
  lemma {:induction false} FractionChangesByDefault(bits: nat)
    requires bits == 6 || bits == 7 || bits == 9
    ensures StepFor(1.0) == 943718
    ensures (943718 * Pow2(bits)) % ONE != 0
  {
    assert Pow2(6) == 64 && Pow2(7) == 128;
    assert Pow2(9) == 4 * Pow2(7);
  }
}
