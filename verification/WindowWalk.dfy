/**
 * resample_(): one output sample computed by walking over three separate frames with
 * unsigned 32-bit indices and an unsigned sinc phase that runs down to zero and back up.
 */
module WindowWalk {
  import opened Arith
  import opened FixedPoint
  import opened SincWindow

  /** What a call of resample_() does: a value, a roc_panic, or a read behind a frame. */
  datatype Outcome = Value(v: real) | Panic | PastEnd

  /** First and last positions taken from the previous, current and next frame. */
  datatype Ranges = Ranges(beginPrev: nat, beginCur: nat, endCur: nat, endNext: nat)

  function TapRanges(frameSize: nat, half: U32, sample: U32): (r: Ranges)
    requires 0 < frameSize < 4096
  {
    var qtFrame: U32 := frameSize * ONE;
    Ranges(
      if sample >= half then frameSize else ToSize(QCeil(Add32(sample, Sub32(qtFrame, half)))),
      if sample >= half then ToSize(QCeil(sample - half)) else 0,
      if Add32(sample, half) > qtFrame then frameSize - 1 else ToSize(QFloor(Add32(sample, half))),
      if Add32(sample, half) > qtFrame
      then ToSize(QFloor(Sub32(Add32(sample, half), qtFrame))) + 1
      else 0)
  }

  /** The four roc_panic_if checks on the computed indices. */
  predicate IndexPanic(frameSize: nat, r: Ranges) {
    r.beginPrev > frameSize || r.beginCur > frameSize || r.endCur > frameSize || r.endNext > frameSize
  }

  /** Time plus half window does not fit into 32 bits, which takes a frame of more than 2048 positions. */
  predicate EndWraps(half: U32, sample: int) { sample + half >= WRAP }

  /** The part of the window that resample_() looks at sticks out of the three frames. */
  predicate SticksOut(frameSize: nat, half: U32, sample: int) {
    var time := frameSize * ONE + sample;
    FirstTap(half, time) < 0 || (!EndWraps(half, sample) && LastTap(half, time) >= 3 * frameSize)
  }

  lemma {:induction false} BeginPrevExact(frameSize: nat, half: U32, sample: U32)
    requires 0 < frameSize < 4096
    requires sample < frameSize * ONE && sample < half
    ensures var first := FirstTap(half, frameSize * ONE + sample);
            var b := TapRanges(frameSize, half, sample).beginPrev;
            if first < 0 then b > frameSize else b == first <= frameSize
  {
    var x := sample + frameSize * ONE - half;
    AddSubMod(sample, frameSize * ONE, half);
    CeilIndex(x);
  }

  lemma {:induction false} BeginCurExact(frameSize: nat, half: U32, sample: U32)
    requires 0 < frameSize < 4096
    requires half <= sample < frameSize * ONE
    ensures var b := TapRanges(frameSize, half, sample).beginCur;
            b + frameSize == FirstTap(half, frameSize * ONE + sample) && b <= frameSize
  {
    var x := sample - half;
    assert x < frameSize * ONE;
    assert QCeil(x) == CeilOf(x) * ONE;
  }

  lemma {:induction false} EndsExact(frameSize: nat, half: U32, sample: U32)
    requires 0 < frameSize < 4096
    requires sample < frameSize * ONE
    requires !EndWraps(half, sample)
    ensures var r := TapRanges(frameSize, half, sample);
            var last := LastTap(half, frameSize * ONE + sample);
            if sample + half > frameSize * ONE
            then r.endCur == frameSize - 1 && r.endNext + 2 * frameSize == last + 1
            else r.endCur + frameSize == last && r.endNext == 0 && r.endCur <= frameSize
  {
    var x := sample + half;
    assert Add32(sample, half) == x;
    if x > frameSize * ONE {
      var y := x - frameSize * ONE;
      assert Sub32(x, frameSize * ONE) == y;
      assert ToSize(QFloor(y)) == FloorOf(y);
    } else {
      assert ToSize(QFloor(x)) == FloorOf(x);
    }
  }

  /** An end index that wraps lies 4096 positions too low: left of the centre, and never in the next frame. */
  lemma {:induction false} EndsWrapped(frameSize: nat, half: U32, sample: U32)
    requires 0 < frameSize < 4096
    requires sample < frameSize * ONE
    requires EndWraps(half, sample)
    ensures var r := TapRanges(frameSize, half, sample);
            var time := frameSize * ONE + sample;
            && r.endCur + frameSize + 4096 == LastTap(half, time) && r.endNext == 0
            && r.endCur + frameSize <= FloorOf(time) && r.endCur < frameSize
  {
    var x := sample + half - WRAP;
    assert Add32(sample, half) == x < sample;
    assert ToSize(QFloor(x)) == FloorOf(x);
  }

  /**
   * The index checks panic exactly when the window sticks out of the three frames, and otherwise
   * the ranges cut the window into consecutive pieces, except that an end which does not fit
   * into 32 bits is taken for one that is 4096 positions lower.
   */
  lemma {:induction false} PanicsExactly(frameSize: nat, half: U32, sample: U32)
    requires 0 < frameSize < 4096
    requires sample < frameSize * ONE
    ensures IndexPanic(frameSize, TapRanges(frameSize, half, sample)) <==> SticksOut(frameSize, half, sample)
    ensures var time := frameSize * ONE + sample;
            var r := TapRanges(frameSize, half, sample);
            !SticksOut(frameSize, half, sample) ==>
              && (if sample < half then r.beginPrev == FirstTap(half, time) && r.beginCur == 0
                  else r.beginPrev == frameSize && r.beginCur + frameSize == FirstTap(half, time))
              && (if EndWraps(half, sample)
                  then r.endCur + frameSize + 4096 == LastTap(half, time) && r.endNext == 0
                  else if sample + half > frameSize * ONE
                  then r.endCur == frameSize - 1 && r.endNext + 2 * frameSize == LastTap(half, time) + 1
                  else r.endCur + frameSize == LastTap(half, time) && r.endNext == 0)
  {
    if EndWraps(half, sample) {
      EndsWrapped(frameSize, half, sample);
    } else {
      EndsExact(frameSize, half, sample);
    }
    if sample < half {
      BeginPrevExact(frameSize, half, sample);
    } else {
      BeginCurExact(frameSize, half, sample);
    }
  }

  /** The longest half window for which no output time panics: from 2048 positions on, the right end is not checked. */
  predicate HalfFits(frameSize: nat, half: U32) {
    if frameSize < 2048 then half <= frameSize * ONE else half < (frameSize + 1) * ONE
  }

  /** No output time can panic exactly when the half window is no longer than one frame, or just above it in long frames. */
  lemma {:induction false} NeverPanicsIff(frameSize: nat, half: U32)
    requires 0 < frameSize < 4096
    ensures (forall sample: U32 :: sample < frameSize * ONE ==> !IndexPanic(frameSize, TapRanges(frameSize, half, sample)))
            <==> HalfFits(frameSize, half)
  {
    forall sample: U32 | sample < frameSize * ONE
      ensures IndexPanic(frameSize, TapRanges(frameSize, half, sample)) <==> SticksOut(frameSize, half, sample)
    {
      PanicsExactly(frameSize, half, sample);
    }
    if HalfFits(frameSize, half) {
      forall sample: U32 | sample < frameSize * ONE
        ensures !SticksOut(frameSize, half, sample)
      {
      }
    } else {
      var bad: U32 := if half >= (frameSize + 1) * ONE then 0 else frameSize * ONE - 1;
      assert SticksOut(frameSize, half, bad);
      assert IndexPanic(frameSize, TapRanges(frameSize, half, bad));
    }
  }

  /** No end index wraps exactly when frame and half window together fit into 32 bits. */
  lemma {:induction false} EndNeverWrapsIff(frameSize: nat, half: U32)
    requires 0 < frameSize < 4096
    ensures (forall sample: U32 :: sample < frameSize * ONE ==> !EndWraps(half, sample))
            <==> frameSize * ONE + half <= WRAP
  {
    var last: U32 := frameSize * ONE - 1;
    assert EndWraps(half, last) <==> frameSize * ONE + half > WRAP;
  }

  /** The sinc phase at the first position of the window. */
  lemma {:induction false} InitialPhase(frameSize: nat, half: U32, sample: U32)
    requires 0 < frameSize < 4096
    requires sample < frameSize * ONE && half >= ONE
    ensures var time := frameSize * ONE + sample;
            var sum := Add32(frameSize * ONE, sample);
            var cur := Sub32(sum, QCeil(Sub32(sum, half)));
            cur == time - FirstTap(half, time) * ONE && 0 <= cur <= half
  {
    var time := frameSize * ONE + sample;
    var sum := Add32(frameSize * ONE, sample);
    var first := FirstTap(half, time);
    FirstCeil(frameSize, half, sample);
    CeilBetween(time - half);
    WrapDiff(time, first * ONE, sum, QCeil(Sub32(sum, half)));
  }

  lemma {:induction false} FirstCeil(frameSize: nat, half: U32, sample: U32)
    requires 0 < frameSize < 4096
    ensures var time := frameSize * ONE + sample;
            QCeil(Sub32(Add32(frameSize * ONE, sample), half)) == (FirstTap(half, time) * ONE) % WRAP
  {
    hide QCeil;
    AddThenSub(frameSize * ONE, sample, half);
    QCeilWraps(frameSize * ONE + sample - half);
  }

  lemma {:induction false} WrapDiff(a: int, b: int, a': U32, b': U32)
    requires a' == a % WRAP && b' == b % WRAP
    requires 0 <= a - b < WRAP
    ensures Sub32(a', b') == a - b
  {
    SubMod(a, b);
  }

  lemma {:induction false} CeilBetween(x: int)
    ensures x <= CeilOf(x) * ONE < x + ONE
  {
  }

  // ---------------------------------------------------------------- accumulation

  /** The sum a walk has to produce: signal s is the three frames laid end to end. */
  datatype Window = Window(k: Kernel, s: seq<real>, n: nat, ch: nat, time: int) {
    ghost predicate Valid() {
      k.Valid() && k.FitsTable() && ch < n && k.step > 0 && k.half >= ONE
    }

    /** Weighted sum of the window positions before hi. */
    ghost function Partial(hi: int): real {
      SumRange(Weighted(k, s, n, ch, time), FirstTap(k.half, time), hi)
    }

    /** Interpolation fraction used at position p. */
    function FractAt(p: int): real {
      var anchor := if p * ONE <= time then FirstTap(k.half, time) else FloorOf(time) + 1;
      InterpFract(k.interpBits, Phase(k.step, time, anchor))
    }

    ghost predicate Inside(p: int) { FirstTap(k.half, time) <= p <= LastTap(k.half, time) }
  }

  lemma {:induction false} WeightInside(w: Window, q: int)
    requires w.Valid() && w.Inside(q)
    ensures var x := Phase(w.k.step, w.time, q);
            && x < WRAP
            && TableIndex(w.k.interpBits, x) + 1 < |w.k.table|
            && Weight(w.k, w.time, q) == Sinc(w.k, x, w.FractAt(q))
  {
    assert w.time - w.k.half <= q * ONE <= w.time + w.k.half;
    WindowLookup(w.k, w.time, q);
  }

  /** One accumulation step, reading position p + m of the signal from a frame. */
  lemma {:induction false} Accumulate(w: Window, frame: seq<real>, m: nat, p: nat, i: nat, x: nat, fract: real)
    requires w.Valid() && w.Inside(p + m)
    requires CutAt(w.s, frame, w.n, m)
    requires i == p * w.n + w.ch && i < |frame|
    requires x == Phase(w.k.step, w.time, p + m)
    requires fract == w.FractAt(p + m)
    ensures x < WRAP
    ensures TableIndex(w.k.interpBits, x) + 1 < |w.k.table|
    ensures w.Partial(p + m + 1) == w.Partial(p + m) + frame[i] * Sinc(w.k, x, fract)
  {
    hide Sinc, Phase, Weight, Tap, Pow2;
    WeightInside(w, p + m);
    var v := frame[i];
    assert Tap(w.s, w.n, w.ch, p + m) == v by {
      ReadsTap(w.s, frame, w.n, w.ch, m, p);
    }
    PartialNext(w, p + m, v, Sinc(w.k, x, fract));
  }

  lemma {:induction false} PartialNext(w: Window, q: int, sample: real, weight: real)
    requires FirstTap(w.k.half, w.time) <= q
    requires sample == Tap(w.s, w.n, w.ch, q)
    requires weight == Weight(w.k, w.time, q)
    ensures w.Partial(q + 1) == w.Partial(q) + sample * weight
  {
    var f := Weighted(w.k, w.s, w.n, w.ch, w.time);
    assert f(q) == sample * weight;
    SumRangeNext(f, FirstTap(w.k.half, w.time), q);
  }

  lemma {:induction false} SumRangeNext(f: int -> real, lo: int, hi: int)
    requires lo <= hi
    ensures SumRange(f, lo, hi + 1) == SumRange(f, lo, hi) + f(hi)
  {
  }

  lemma {:induction false} ReadsTap(whole: seq<real>, frame: seq<real>, n: nat, ch: nat, m: nat, p: nat)
    requires CutAt(whole, frame, n, m)
    requires p * n + ch < |frame|
    ensures Tap(whole, n, ch, p + m) == frame[p * n + ch]
  {
    var i := p * n + ch;
    assert p * n >= 0;
    assert (p + m) * n + ch == m * n + i;
    assert whole[m * n + i] == frame[i];
  }

  lemma {:induction false} IndexOrder(p: int, q: int, n: nat, ch: nat)
    requires ch < n
    ensures p * n + ch < q * n + ch <==> p < q
    ensures p * n + ch < q * n <==> p < q
  {
    if p < q {
      assert (p + 1) * n <= q * n;
    } else {
      assert q * n <= p * n;
    }
  }

  // ---------------------------------------------------------------- the walk itself

  /** Signed phase of a position: non-negative on the left side of the window. */
  ghost function SignedPhase(w: Window, p: int): int {
    FloorOf((w.time - p * ONE) * w.k.step)
  }

  lemma {:induction false} SignedPhaseFacts(w: Window, p: int)
    requires w.k.step > 0
    ensures SignedPhase(w, p + 1) == SignedPhase(w, p) - w.k.step
    ensures p * ONE <= w.time ==> SignedPhase(w, p) >= 0
    ensures p * ONE <= w.time ==> (SignedPhase(w, p) >= w.k.step <==> (p + 1) * ONE <= w.time)
    ensures p * ONE > w.time ==> SignedPhase(w, p) <= 0
    ensures Phase(w.k.step, w.time, p) == if p * ONE <= w.time then SignedPhase(w, p) else -SignedPhase(w, p)
  {
    PhaseNext(w.k.step, w.time, p);
    if p * ONE <= w.time {
      PhaseStops(w.k.step, w.time, p);
    } else {
      var u := p * ONE - w.time;
      assert u * w.k.step >= 0;
      assert (w.time - p * ONE) * w.k.step == -(u * w.k.step);
    }
  }

  /** Interpolation fractions of the two sides of the window. */
  function LeftFract(w: Window): real {
    InterpFract(w.k.interpBits, Phase(w.k.step, w.time, FirstTap(w.k.half, w.time)))
  }

  function RightFract(w: Window): real {
    InterpFract(w.k.interpBits, Phase(w.k.step, w.time, FloorOf(w.time) + 1))
  }

  /** The frame of the given size holds positions m, m + 1, ... of the signal of w. */
  ghost predicate Holds(w: Window, frame: seq<real>, m: nat, size: nat) {
    w.Valid() && CutAt(w.s, frame, w.n, m) && |frame| == size * w.n
  }

  lemma {:induction false} ReadableIndex(p: nat, size: nat, n: nat, ch: nat)
    requires ch < n
    ensures p * n + ch < size * n <==> p < size
    ensures p * n + ch < size * n + ch <==> p < size
    ensures (p + 1) * n + ch == p * n + ch + n
  {
    IndexOrder(p, size, n, ch);
  }

  lemma {:induction false} LeftInside(w: Window, q: int)
    requires FirstTap(w.k.half, w.time) <= q && q * ONE <= w.time
    ensures w.Inside(q) && w.FractAt(q) == LeftFract(w)
  {
  }

  lemma {:induction false} RightInside(w: Window, q: int)
    requires w.k.half >= ONE
    requires w.time < q * ONE && q <= LastTap(w.k.half, w.time)
    ensures w.Inside(q) && w.FractAt(q) == RightFract(w)
  {
  }

  lemma {:induction false} PhaseWraps(cur: int, x: nat, next: int, step: U32)
    requires x < WRAP
    requires cur == x % WRAP
    requires next == x + step
    ensures cur == x
    ensures Add32(cur, step) == next % WRAP
  {
  }

  /** One iteration on the left side, where the phase runs down to zero. */
  lemma {:induction false} LeftStep(w: Window, frame: seq<real>, m: nat, size: nat, p: nat, i: nat, cur: int)
    requires Holds(w, frame, m, size)
    requires FirstTap(w.k.half, w.time) <= p + m && (p + m) * ONE <= w.time
    requires p < size
    requires i == p * w.n + w.ch
    requires cur == SignedPhase(w, p + m)
    ensures i < |frame|
    ensures 0 <= cur < WRAP
    ensures w.k.interpBits <= 20 && TableIndex(w.k.interpBits, cur) + 1 < |w.k.table|
    ensures w.Partial(p + m + 1) == w.Partial(p + m) + frame[i] * Sinc(w.k, cur, LeftFract(w))
    ensures cur >= w.k.step <==> (p + m + 1) * ONE <= w.time
    ensures SignedPhase(w, p + m + 1) == cur - w.k.step
  {
    hide Sinc, Pow2, Phase, FirstTap, LastTap, LeftFract, SignedPhase, SumRange, CutAt;
    ReadableIndex(p, size, w.n, w.ch);
    SignedPhaseFacts(w, p + m);
    LeftInside(w, p + m);
    Accumulate(w, frame, m, p, i, cur, LeftFract(w));
  }

  /** One iteration on the right side, where the phase grows again. */
  lemma {:induction false} RightStep(w: Window, frame: seq<real>, m: nat, size: nat, p: nat, i: nat, cur: int)
    requires Holds(w, frame, m, size)
    requires w.time < (p + m) * ONE && p + m <= LastTap(w.k.half, w.time)
    requires p < size
    requires i == p * w.n + w.ch
    requires cur == (-SignedPhase(w, p + m)) % WRAP
    ensures i < |frame|
    ensures w.k.interpBits <= 20 && TableIndex(w.k.interpBits, cur) + 1 < |w.k.table|
    ensures w.Partial(p + m + 1) == w.Partial(p + m) + frame[i] * Sinc(w.k, cur, RightFract(w))
    ensures Add32(cur, w.k.step) == (-SignedPhase(w, p + m + 1)) % WRAP
  {
    hide Sinc, Pow2, Phase, FirstTap, LastTap, RightFract, SignedPhase, SumRange, CutAt;
    ReadableIndex(p, size, w.n, w.ch);
    SignedPhaseFacts(w, p + m);
    RightInside(w, p + m);
    var x := Phase(w.k.step, w.time, p + m);
    Accumulate(w, frame, m, p, i, x, RightFract(w));
    PhaseWraps(cur, x, -SignedPhase(w, p + m + 1), w.k.step);
  }

  /** The rest of the previous frame, if the window begins there. The phase is decreasing. */
  method WalkPrev(k: Kernel, n: nat, ch: nat, frame: array<real>, size: nat, begin: nat,
                  cur: U32, fract: real, acc: real, ghost w: Window) returns (cur': U32, acc': real)
    requires w.k == k && w.n == n && w.ch == ch && ch < n
    requires Holds(w, frame[..], 0, size)
    requires begin <= size
    requires begin < size ==>
      FirstTap(k.half, w.time) <= begin && size * ONE <= w.time && fract == LeftFract(w)
      && cur == SignedPhase(w, begin) && acc == w.Partial(begin)
    ensures if begin < size then cur' == SignedPhase(w, size) && acc' == w.Partial(size)
            else cur' == cur && acc' == acc
  {
    hide Sinc, Pow2, Phase, FirstTap, LeftFract, SignedPhase, Holds, TableIndex, Window.Partial;
    cur', acc' := cur, acc;
    var i := begin * n + ch;
    ghost var p := begin;
    ReadableIndex(p, size, n, ch);
    while i < size * n + ch
      invariant begin <= p <= size
      invariant i == p * n + ch
      invariant i < size * n + ch <==> p < size
      invariant if begin < size then cur' == SignedPhase(w, p) && acc' == w.Partial(p)
                else cur' == cur && acc' == acc
    {
      LeftStep(w, frame[..], 0, size, p, i, cur');
      acc' := acc' + frame[i] * Sinc(k, cur', fract);
      cur' := Sub32(cur', k.step);
      ReadableIndex(p, size, n, ch);
      i := i + n;
      p := p + 1;
      ReadableIndex(p, size, n, ch);
    }
  }

  /** The left side of the window inside the current frame, up to the centre. */
  method WalkLeft(k: Kernel, n: nat, ch: nat, frame: array<real>, size: nat, begin: nat,
                  cur: U32, fract: real, acc: real, ghost w: Window)
    returns (i: nat, cur': U32, acc': real)
    requires w.k == k && w.n == n && w.ch == ch && ch < n
    requires Holds(w, frame[..], size, size)
    requires FirstTap(k.half, w.time) <= begin + size
    requires (begin + size) * ONE <= w.time < 2 * size * ONE
    requires cur == SignedPhase(w, begin + size)
    requires fract == LeftFract(w)
    requires acc == w.Partial(begin + size)
    ensures var centre := FloorOf(w.time);
            && size <= centre < 2 * size
            && i == IndexOf(centre + 1 - size, n, ch)
            && 0 <= cur' == SignedPhase(w, centre) < k.step
            && acc' == w.Partial(centre + 1)
  {
    hide Sinc, Pow2, Phase, FirstTap, LeftFract, SignedPhase, Holds, TableIndex, Window.Partial, FloorOf, IndexOf;
    ghost var p := begin;
    i := IndexOf(begin, n, ch);
    LeftStepAt(w, frame[..], size, p, i, cur);
    acc' := acc + frame[i] * Sinc(k, cur, fract);
    cur' := cur;
    while cur' >= k.step
      invariant begin <= p < size && (p + size) * ONE <= w.time
      invariant i == IndexOf(p, n, ch)
      invariant cur' == SignedPhase(w, p + size)
      invariant cur' >= k.step <==> (p + size + 1) * ONE <= w.time
      invariant SignedPhase(w, p + size + 1) == cur' - k.step
      invariant acc' == w.Partial(p + size + 1)
      decreases size - p
    {
      NextIndexOf(p, n, ch);
      i := i + n;
      p := p + 1;
      cur' := Sub32(cur', k.step);
      LeftStepAt(w, frame[..], size, p, i, cur');
      acc' := acc' + frame[i] * Sinc(k, cur', fract);
    }
    NextIndexOf(p, n, ch);
    i := i + n;
    FloorIs(w.time, p + size);
  }

  /** Where a position of a channel is in an interleaved frame. */
  function IndexOf(p: nat, n: nat, ch: nat): nat { p * n + ch }

  lemma {:induction false} NextIndexOf(p: nat, n: nat, ch: nat)
    ensures IndexOf(p + 1, n, ch) == IndexOf(p, n, ch) + n
  {
  }

  lemma {:induction false} LeftStepAt(w: Window, frame: seq<real>, size: nat, p: nat, i: nat, cur: int)
    requires Holds(w, frame, size, size)
    requires FirstTap(w.k.half, w.time) <= p + size && (p + size) * ONE <= w.time
    requires p < size && i == IndexOf(p, w.n, w.ch) && cur == SignedPhase(w, p + size)
    ensures i < |frame|
    ensures 0 <= cur < WRAP
    ensures w.k.interpBits <= 20 && TableIndex(w.k.interpBits, cur) + 1 < |w.k.table|
    ensures w.Partial(p + size + 1) == w.Partial(p + size) + frame[i] * Sinc(w.k, cur, LeftFract(w))
    ensures cur >= w.k.step <==> (p + size + 1) * ONE <= w.time
    ensures SignedPhase(w, p + size + 1) == cur - w.k.step
  {
    hide Sinc, Pow2, Phase, FirstTap, LeftFract, SignedPhase, Holds, TableIndex, Window.Partial;
    LeftStep(w, frame, size, size, p, i, cur);
  }

  lemma {:induction false} FloorIs(x: int, q: int)
    requires q * ONE <= x < (q + 1) * ONE
    ensures FloorOf(x) == q
  {
  }

  /** The right side inside the current frame; false when the walk reads behind the frame. */
  method WalkRight(k: Kernel, n: nat, ch: nat, frame: array<real>, size: nat, ghost begin: nat, start: nat, last: nat,
                   cur: U32, fract: real, acc: real, ghost w: Window)
    returns (inBounds: bool, cur': U32, acc': real)
    requires w.k == k && w.n == n && w.ch == ch && ch < n
    requires Holds(w, frame[..], size, size)
    requires begin <= size && last <= size
    requires start == begin * n + ch
    requires w.time < (begin + size) * ONE
    requires begin <= last ==> last + size <= LastTap(k.half, w.time)
    requires cur == (-SignedPhase(w, begin + size)) % WRAP
    requires fract == RightFract(w)
    requires acc == w.Partial(begin + size)
    ensures inBounds <==> last < size
    ensures inBounds ==>
              if begin <= last + 1
              then cur' == (-SignedPhase(w, last + 1 + size)) % WRAP && acc' == w.Partial(last + 1 + size)
              else acc' == acc
  {
    hide Sinc, Pow2, Phase, LastTap, RightFract, SignedPhase, Holds, TableIndex, Window.Partial, Add32;
    HoldsSize(w, frame[..], size, size);
    inBounds, cur', acc' := true, cur, acc;
    var i := start;
    ghost var p := begin;
    var bound := last * n + ch;
    IndexOrder(last, p, n, ch);
    while i <= bound
      invariant begin <= p <= size && (p <= last + 1 || p == begin)
      invariant i == p * n + ch
      invariant i <= bound <==> p <= last
      invariant cur' == (-SignedPhase(w, p + size)) % WRAP
      invariant acc' == w.Partial(p + size)
      decreases last + 1 - p
    {
      ReadableIndex(p, size, n, ch);
      if i >= frame.Length {
        return false, cur', acc';
      }
      RightStep(w, frame[..], size, size, p, i, cur');
      acc' := acc' + frame[i] * Sinc(k, cur', fract);
      cur' := Add32(cur', k.step);
      i := i + n;
      p := p + 1;
      IndexOrder(last, p, n, ch);
    }
  }

  lemma {:induction false} HoldsSize(w: Window, frame: seq<real>, m: nat, size: nat)
    requires Holds(w, frame, m, size)
    ensures |frame| == size * w.n
  {
  }

  /** The part of the window that reaches into the next frame, if any. */
  method WalkNext(k: Kernel, n: nat, ch: nat, frame: array<real>, size: nat, end: nat,
                  cur: U32, fract: real, acc: real, ghost w: Window) returns (acc': real)
    requires w.k == k && w.n == n && w.ch == ch && ch < n
    requires Holds(w, frame[..], 2 * size, size)
    requires end <= size
    requires fract == RightFract(w)
    requires 0 < end ==>
      w.time < 2 * size * ONE && end + 2 * size <= LastTap(k.half, w.time) + 1
      && cur == (-SignedPhase(w, 2 * size)) % WRAP && acc == w.Partial(2 * size)
    ensures acc' == if 0 < end then w.Partial(end + 2 * size) else acc
  {
    hide Sinc, Pow2, Phase, LastTap, RightFract, SignedPhase, Holds, TableIndex, Window.Partial, Add32;
    acc' := acc;
    var cur' := cur;
    var i := ch;
    ghost var p := 0;
    ReadableIndex(p, end, n, ch);
    while i < end * n + ch
      invariant 0 <= p <= end
      invariant i == p * n + ch
      invariant i < end * n + ch <==> p < end
      invariant if 0 < end then cur' == (-SignedPhase(w, p + 2 * size)) % WRAP && acc' == w.Partial(p + 2 * size)
                else acc' == acc
      decreases end - p
    {
      RightStep(w, frame[..], 2 * size, size, p, i, cur');
      acc' := acc' + frame[i] * Sinc(k, cur', fract);
      cur' := Add32(cur', k.step);
      ReadableIndex(p, end, n, ch);
      i := i + n;
      p := p + 1;
      ReadableIndex(p, end, n, ch);
    }
  }

  /** The part of the interpolation at and left of the centre. */
  ghost function LeftHalf(k: Kernel, s: seq<real>, n: nat, ch: nat, time: int): real {
    SumRange(Weighted(k, s, n, ch, time), FirstTap(k.half, time), FloorOf(time) + 1)
  }

  /**
   * What one call yields, for any position of the window: the direct sum over the three
   * frames laid end to end, except that the call panics when the window sticks out of them,
   * reads one position behind the current frame when the window ends exactly there, and
   * leaves out everything right of the centre when the end of the window exceeds 32 bits.
   */
  ghost function Expected(k: Kernel, s: seq<real>, n: nat, ch: nat, size: nat, sample: U32): Outcome {
    var time := size * ONE + sample;
    if SticksOut(size, k.half, sample) then Panic
    else if EndWraps(k.half, sample) then Value(LeftHalf(k, s, n, ch, time))
    else if sample + k.half == size * ONE then PastEnd
    else Value(Interpolate(k, s, n, ch, time))
  }

  lemma {:induction false} FramesHold(w: Window, prev: seq<real>, curr: seq<real>, next: seq<real>, size: nat)
    requires w.Valid()
    requires |prev| == |curr| == |next| == size * w.n
    requires w.s == prev + curr + next
    ensures Holds(w, prev, 0, size) && Holds(w, curr, size, size) && Holds(w, next, 2 * size, size)
  {
    hide Pow2, Kernel.Valid, Kernel.FitsTable;
    var len := size * w.n;
    assert 2 * size * w.n == len + len;
    assert w.s[0 .. len] == prev;
    assert w.s[len .. len + len] == curr;
    assert w.s[len + len .. len + len + len] == next;
  }

  lemma {:induction false} StartPhase(w: Window, cur: nat, x: int)
    requires w.Valid()
    requires cur == w.time - FirstTap(w.k.half, w.time) * ONE
    requires x == (cur * w.k.step) / ONE
    ensures x == SignedPhase(w, FirstTap(w.k.half, w.time))
    ensures 0 <= x < WRAP
    ensures InterpFract(w.k.interpBits, x) == LeftFract(w)
  {
    var first := FirstTap(w.k.half, w.time);
    assert x == SignedPhase(w, first);
    FirstInside(w);
    hide *;
    WeightInside(w, first);
    SignedPhaseFacts(w, first);
    LeftFractIs(w);
  }

  lemma {:induction false} FirstInside(w: Window)
    requires w.Valid()
    ensures var first := FirstTap(w.k.half, w.time); w.Inside(first) && first * ONE <= w.time && w.k.step > 0
  {
    hide Pow2, Kernel.Valid, Kernel.FitsTable;
    CeilBetween(w.time - w.k.half);
  }

  lemma {:induction false} LeftFractIs(w: Window)
    ensures LeftFract(w) == InterpFract(w.k.interpBits, Phase(w.k.step, w.time, FirstTap(w.k.half, w.time)))
  {
  }

  /** Crossing the centre: the phase is mirrored, and the right side has its own fraction. */
  lemma {:induction false} CrossZero(w: Window, cur: U32)
    requires w.Valid()
    requires cur == SignedPhase(w, FloorOf(w.time)) < w.k.step
    ensures w.k.step - cur == (-SignedPhase(w, FloorOf(w.time) + 1)) % WRAP
    ensures InterpFract(w.k.interpBits, w.k.step - cur) == RightFract(w)
  {
    hide Pow2, InterpFract, SignedPhase, Phase, FloorOf, Kernel.Valid, Kernel.FitsTable;
    FloorBetween(w.time);
    SignedPhaseFacts(w, FloorOf(w.time));
    SignedPhaseFacts(w, FloorOf(w.time) + 1);
  }

  lemma {:induction false} FloorBetween(x: int)
    ensures FloorOf(x) * ONE <= x < (FloorOf(x) + 1) * ONE
  {
  }

  /** Where the summation over a window ends. */
  function EndOf(half: U32, size: nat, sample: U32): int {
    var time := size * ONE + sample;
    if EndWraps(half, sample) then FloorOf(time) + 1 else LastTap(half, time) + 1
  }

  /** Where the pieces of a window that does not stick out begin and end. */
  lemma {:induction false} PiecesConnect(size: nat, half: U32, sample: U32)
    requires 0 < size < 4096
    requires sample < size * ONE && half >= ONE
    requires !SticksOut(size, half, sample)
    ensures var time := size * ONE + sample;
            var r := TapRanges(size, half, sample);
            var first, last, centre := FirstTap(half, time), LastTap(half, time), FloorOf(time);
            && r.beginPrev <= size && (r.beginPrev < size ==> first == r.beginPrev && r.beginCur == 0)
            && (r.beginPrev == size ==> first == r.beginCur + size)
            && first <= r.beginCur + size && (r.beginCur + size) * ONE <= time
            && PiecesEnd(size, r, centre, last, EndOf(half, size, sample))
            && (r.endCur == size <==> !EndWraps(half, sample) && sample + half == size * ONE)
  {
    PanicsExactly(size, half, sample);
    if EndWraps(half, sample) {
      EndsWrapped(size, half, sample);
    }
    CeilBetween(size * ONE + sample - half);
  }

  /** The pieces right of the centre end at position end, or there are none. */
  predicate PiecesEnd(size: nat, r: Ranges, centre: int, last: int, end: int) {
    && r.endCur <= size && r.endNext <= size && r.endCur + size <= last
    && if 0 < r.endNext then centre <= r.endCur + size && r.endCur + 1 == size && r.endNext + 2 * size == end == last + 1
       else if centre <= r.endCur + size then r.endCur + size + 1 == end
       else end == centre + 1
  }

  /** Both passes of the left side: from the first position to the centre. */
  method LeftSide(k: Kernel, n: nat, ch: nat, size: nat, sample: U32, ranges: Ranges,
                  prev: array<real>, curr: array<real>, ghost w: Window)
    returns (i: nat, cur: U32, acc: real)
    requires w.k == k && w.n == n && w.ch == ch && ch < n && w.time == size * ONE + sample
    requires w.Valid() && Holds(w, prev[..], 0, size) && Holds(w, curr[..], size, size)
    requires 0 < size < 4096 && sample < size * ONE
    requires ranges.beginPrev <= size
    requires if ranges.beginPrev < size then FirstTap(k.half, w.time) == ranges.beginPrev && ranges.beginCur == 0
             else FirstTap(k.half, w.time) == ranges.beginCur + size
    requires (ranges.beginCur + size) * ONE <= w.time
    ensures var centre := FloorOf(w.time);
            && size <= centre < 2 * size
            && i == (centre + 1 - size) * n + ch
            && 0 <= cur == SignedPhase(w, centre) < k.step
            && acc == w.Partial(centre + 1)
  {
    hide Sinc, Pow2, Phase, InterpFract, LeftFract, SignedPhase, Holds, SumRange, QCeil, Sub32, Add32,
         FirstTap, LastTap, Kernel.Valid, Kernel.FitsTable, Window.Partial;
    var sum := Add32(size * ONE, sample);
    var qtCur := Sub32(sum, QCeil(Sub32(sum, k.half)));
    InitialPhase(size, k.half, sample);
    var start := (qtCur * k.step) / ONE;
    StartPhase(w, qtCur, start);
    cur := start % WRAP;
    var fract := InterpFract(k.interpBits, cur);
    acc := 0.0;
    EmptyWindow(w);
    cur, acc := WalkPrev(k, n, ch, prev, size, ranges.beginPrev, cur, fract, acc, w);
    i, cur, acc := WalkLeft(k, n, ch, curr, size, ranges.beginCur, cur, fract, acc, w);
  }

  /** Both passes of the right side: from behind the centre to the last position. */
  method RightSide(k: Kernel, n: nat, ch: nat, size: nat, ranges: Ranges, i: nat, cur: U32, acc: real,
                   curr: array<real>, next: array<real>, ghost w: Window, ghost end: int)
    returns (inBounds: bool, acc': real)
    requires w.k == k && w.n == n && w.ch == ch && ch < n
    requires w.Valid() && Holds(w, curr[..], size, size) && Holds(w, next[..], 2 * size, size)
    requires size <= FloorOf(w.time) < 2 * size
    requires i == (FloorOf(w.time) + 1 - size) * n + ch
    requires cur == SignedPhase(w, FloorOf(w.time)) < k.step
    requires acc == w.Partial(FloorOf(w.time) + 1)
    requires PiecesEnd(size, ranges, FloorOf(w.time), LastTap(k.half, w.time), end)
    ensures inBounds <==> ranges.endCur < size
    ensures inBounds ==> acc' == w.Partial(end)
  {
    hide Sinc, Pow2, Phase, InterpFract, RightFract, SignedPhase, Holds, SumRange, LastTap,
         Kernel.Valid, Kernel.FitsTable, Window.Partial;
    CrossZero(w, cur);
    var cur' := k.step - cur;
    var fract := InterpFract(k.interpBits, cur');
    inBounds, cur', acc' := WalkRight(k, n, ch, curr, size, FloorOf(w.time) + 1 - size, i, ranges.endCur, cur', fract, acc, w);
    if inBounds {
      acc' := WalkNext(k, n, ch, next, size, ranges.endNext, cur', fract, acc', w);
    }
  }

  method ResampleOne(k: Kernel, n: nat, ch: nat, size: nat, sample: U32,
                     prev: array<real>, curr: array<real>, next: array<real>) returns (r: Outcome)
    requires k.Valid() && k.FitsTable() && k.step > 0 && k.half >= ONE
    requires ch < n && 0 < size < 4096
    requires prev.Length == curr.Length == next.Length == size * n
    requires sample < size * ONE
    ensures r == Expected(k, prev[..] + curr[..] + next[..], n, ch, size, sample)
  {
    hide SignedPhase, Holds, SumRange, TapRanges, IndexPanic, SticksOut, EndWraps, PiecesEnd, FirstTap, LastTap,
         Kernel.Valid, Kernel.FitsTable, Window.Partial, Interpolate;
    var ranges := TapRanges(size, k.half, sample);
    PanicsExactly(size, k.half, sample);
    if IndexPanic(size, ranges) {
      return Panic;
    }
    PiecesConnect(size, k.half, sample);
    ghost var w := Window(k, prev[..] + curr[..] + next[..], n, ch, size * ONE + sample);
    FramesHold(w, prev[..], curr[..], next[..], size);
    var i, cur, acc := LeftSide(k, n, ch, size, sample, ranges, prev, curr, w);
    assert i <= size * n + ch by {
      MulMono(FloorOf(w.time) + 1 - size, size, n);
    }
    var inBounds;
    inBounds, acc := RightSide(k, n, ch, size, ranges, i, cur, acc, curr, next, w, EndOf(k.half, size, sample));
    WholeWindow(w);
    r := if inBounds then Value(acc) else PastEnd;
  }

  lemma {:induction false} WholeWindow(w: Window)
    ensures w.Partial(LastTap(w.k.half, w.time) + 1) == Interpolate(w.k, w.s, w.n, w.ch, w.time)
    ensures w.Partial(FloorOf(w.time) + 1) == LeftHalf(w.k, w.s, w.n, w.ch, w.time)
  {
  }

  lemma {:induction false} EmptyWindow(w: Window)
    ensures w.Partial(FirstTap(w.k.half, w.time)) == 0.0
  {
  }
}
