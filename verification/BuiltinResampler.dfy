/**
 * The built-in resampler object: the ring of three input frames and the push/pop protocol.
 */
module Resampler {
  import opened Arith
  import opened FixedPoint
  import opened SincWindow
  import opened WindowWalk
  import opened Scaling

  /** All frames laid end to end. */
  function Flatten(frames: seq<seq<real>>): seq<real> {
    if frames == [] then [] else Flatten(frames[..|frames| - 1]) + frames[|frames| - 1]
  }

  ghost predicate Uniform(frames: seq<seq<real>>, len: nat) {
    forall i :: 0 <= i < |frames| ==> |frames[i]| == len
  }

  lemma {:induction false} FlattenLength(frames: seq<seq<real>>, len: nat)
    requires Uniform(frames, len)
    ensures |Flatten(frames)| == |frames| * len
  {
    if frames != [] {
      FlattenLength(frames[..|frames| - 1], len);
      assert (|frames| - 1) * len + len == |frames| * len;
    }
  }

  lemma {:induction false} FlattenLastThree(frames: seq<seq<real>>)
    requires |frames| >= 3
    ensures var m := |frames|;
            Flatten(frames) == Flatten(frames[..m - 3]) + (frames[m - 3] + frames[m - 2] + frames[m - 1])
  {
    hide Flatten;
    var m := |frames|;
    var a, b := frames[..m - 1], frames[..m - 2];
    FlattenLast(frames);
    assert a[..m - 2] == b;
    FlattenLast(a);
    assert b[..m - 3] == frames[..m - 3];
    FlattenLast(b);
    ConcatAssoc(Flatten(frames[..m - 3]), frames[m - 3], frames[m - 2], frames[m - 1]);
  }

  lemma {:induction false} ConcatAssoc(a: seq<real>, b: seq<real>, c: seq<real>, d: seq<real>)
    ensures a + b + c + d == a + (b + c + d)
  {
  }

  lemma {:induction false} FlattenLast(frames: seq<seq<real>>)
    requires frames != []
    ensures Flatten(frames) == Flatten(frames[..|frames| - 1]) + frames[|frames| - 1]
  {
  }

  lemma {:induction false} SuffixCut(head: seq<real>, part: seq<real>, n: nat, m: nat)
    requires |head| == m * n
    ensures CutAt(head + part, part, n, m)
  {
    assert (head + part)[|head| .. |head| + |part|] == part;
  }

  /** The last three frames are a cut of the whole signal. */
  lemma {:induction false} LastThree(frames: seq<seq<real>>, n: nat, size: nat)
    requires |frames| >= 3
    requires Uniform(frames, size * n)
    ensures var m := |frames|;
            CutAt(Flatten(frames), frames[m - 3] + frames[m - 2] + frames[m - 1], n, (m - 3) * size)
  {
    hide Flatten, CutAt;
    var m := |frames|;
    var head := frames[..m - 3];
    FlattenLength(head, size * n);
    FlattenLastThree(frames);
    MulAssoc(m - 3, size, n);
    SuffixCut(Flatten(head), frames[m - 3] + frames[m - 2] + frames[m - 1], n, (m - 3) * size);
  }

  /** The current frame is the last but one of the pushed frames. */
  ghost function PositionAt(count: nat, size: nat, sample: int): int {
    (count - 2) * size * ONE + sample
  }

  lemma {:induction false} PositionStep(count: nat, size: nat, sample: int)
    ensures PositionAt(count + 1, size, sample) == PositionAt(count, size, sample) + size * ONE
    ensures PositionAt(count + 1, size, sample - size * ONE) == PositionAt(count, size, sample)
  {
    assert (count + 1 - 2) * size == (count - 2) * size + size;
  }

  lemma {:induction false} LeftOver(count: nat, size: nat, sample: int)
    ensures count * size * ONE - PositionAt(count, size, sample) == 2 * size * ONE - sample
  {
    assert (count - 2) * size == count * size - 2 * size;
  }

  /** What resample_() returns for a channel at a time of the signal: without its right half if the end is lost. */
  ghost function SampleAt(k: Kernel, s: seq<real>, n: nat, ch: nat, time: int, lost: bool): real {
    if lost then LeftHalf(k, s, n, ch, time) else Interpolate(k, s, n, ch, time)
  }

  /** One interleaved output frame at a time of the signal. */
  ghost function FrameAt(k: Kernel, s: seq<real>, n: nat, time: int, lost: bool): seq<real> {
    seq(n, ch requires 0 <= ch < n => SampleAt(k, s, n, ch, time, lost))
  }

  /** count output frames at time, time + dt, time + 2 dt, ..., which are sample, sample + dt, ... in the current frame. */
  ghost function Stream(k: Kernel, s: seq<real>, n: nat, time: int, sample: int, dt: nat, count: nat): seq<real> {
    if count == 0 then []
    else
      Stream(k, s, n, time, sample, dt, count - 1)
      + FrameAt(k, s, n, time + (count - 1) * dt, EndWraps(k.half, sample + (count - 1) * dt))
  }

  /** The same with every window whole. */
  ghost function WholeStream(k: Kernel, s: seq<real>, n: nat, time: int, dt: nat, count: nat): seq<real> {
    if count == 0 then []
    else WholeStream(k, s, n, time, dt, count - 1) + FrameAt(k, s, n, time + (count - 1) * dt, false)
  }

  /** Splitting a request into two gives the same output. */
  lemma {:induction false} StreamSplits(k: Kernel, s: seq<real>, n: nat, time: int, sample: int, dt: nat, a: nat, b: nat)
    ensures Stream(k, s, n, time, sample, dt, a + b)
         == Stream(k, s, n, time, sample, dt, a) + Stream(k, s, n, time + a * dt, sample + a * dt, dt, b)
    decreases b
  {
    hide FrameAt, EndWraps;
    if b > 0 {
      StreamSplits(k, s, n, time, sample, dt, a, b - 1);
      assert a + (b - 1) == a + b - 1;
      assert (a + b - 1) * dt == a * dt + (b - 1) * dt;
    }
  }

  /** The output times at which resample_() returns a value. */
  ghost predicate Clean(size: nat, half: U32, sample: int) {
    sample < size * ONE && !SticksOut(size, half, sample) && sample + half != size * ONE
  }

  /** What the three ring frames yield is the interpolation of everything pushed so far. */
  lemma {:induction false} RingSeesWholeSignal(k: Kernel, pushed: seq<seq<real>>, n: nat, ch: nat, size: nat, sample: U32)
    requires ch < n && |pushed| >= 3 && Uniform(pushed, size * n) && sample < size * ONE < WRAP
    ensures var m := |pushed|;
            var e := Expected(k, pushed[m - 3] + pushed[m - 2] + pushed[m - 1], n, ch, size, sample);
            && (e.Value? <==> Clean(size, k.half, sample))
            && (e.Panic? <==> SticksOut(size, k.half, sample))
            && (e.Value? ==>
                  e.v == SampleAt(k, Flatten(pushed), n, ch, PositionAt(m, size, sample), EndWraps(k.half, sample)))
  {
    hide Interpolate, LeftHalf, Flatten, FirstTap, LastTap, CutAt, Uniform;
    if Clean(size, k.half, sample) {
      RingSample(k, pushed, n, ch, size, sample);
    }
  }

  /** The cut of the last three frames and the whole signal have the same output, whole or without its right half. */
  lemma {:induction false} RingSample(k: Kernel, pushed: seq<seq<real>>, n: nat, ch: nat, size: nat, sample: U32)
    requires ch < n && |pushed| >= 3 && Uniform(pushed, size * n) && sample < size * ONE
    requires !SticksOut(size, k.half, sample)
    ensures var m, lost := |pushed|, EndWraps(k.half, sample);
            SampleAt(k, pushed[m - 3] + pushed[m - 2] + pushed[m - 1], n, ch, size * ONE + sample, lost)
            == SampleAt(k, Flatten(pushed), n, ch, PositionAt(m, size, sample), lost)
  {
    hide Interpolate, LeftHalf, Flatten, CutAt;
    var m := |pushed|;
    var part := pushed[m - 3] + pushed[m - 2] + pushed[m - 1];
    var time := size * ONE + sample;
    LastThree(pushed, n, size);
    assert time + (m - 3) * size * ONE == PositionAt(m, size, sample);
    MulAssoc(3, size, n);
    if EndWraps(k.half, sample) {
      MulMono(FloorOf(time) + 1, 3 * size, n);
      LeftHalfShift(k, Flatten(pushed), part, n, ch, (m - 3) * size, time);
    } else {
      MulMono(LastTap(k.half, time) + 1, 3 * size, n);
      InterpolateShift(k, Flatten(pushed), part, n, ch, (m - 3) * size, time);
    }
  }

  lemma {:induction false} LeftHalfShift(
    k: Kernel, whole: seq<real>, part: seq<real>, n: nat, ch: nat, m: nat, time: int)
    requires ch < n && time >= 0
    requires CutAt(whole, part, n, m)
    requires 0 <= FirstTap(k.half, time) && (FloorOf(time) + 1) * n <= |part|
    ensures LeftHalf(k, whole, n, ch, time + m * ONE) == LeftHalf(k, part, n, ch, time)
  {
    hide Weighted, SumRange, CutAt;
    WindowSumShift(k, whole, part, n, ch, m, time, FloorOf(time) + 1);
    assert FloorOf(time + m * ONE) == FloorOf(time) + m;
  }

  /** All of the times sample, sample + dt, ..., sample + (count - 1) dt are clean. */
  ghost predicate AllClean(size: nat, half: U32, sample: int, dt: nat, count: nat) {
    count == 0 || (AllClean(size, half, sample, dt, count - 1) && Clean(size, half, sample + (count - 1) * dt))
  }

  /** No window loses its right half when frame and half window together fit into 32 bits. */
  lemma {:induction false} WholeIfEndsFit(k: Kernel, s: seq<real>, n: nat, size: nat, time: int, sample: int, dt: nat, count: nat)
    requires AllClean(size, k.half, sample, dt, count) && size * ONE + k.half <= WRAP
    ensures Stream(k, s, n, time, sample, dt, count) == WholeStream(k, s, n, time, dt, count)
    decreases count
  {
    hide FrameAt, SticksOut;
    if count > 0 {
      WholeIfEndsFit(k, s, n, size, time, sample, dt, count - 1);
    }
  }

  lemma {:induction false} NextFrameFits(count: nat, n: nat, size: nat)
    requires n > 0 && size % n == 0 && count * n < size
    ensures (count + 1) * n == count * n + n <= size
  {
    var q := size / n;
    assert size == n * q;
    MulCancel(count, q, n);
    MulMono(count + 1, q, n);
  }

  lemma {:induction false} PopAdvances(k: Kernel, s: seq<real>, n: nat, dt: nat, count: nat, size: nat,
                    pushes: nat, sample: int)
    ensures var now := sample + count * dt;
            && Stream(k, s, n, PositionAt(pushes, size, sample), sample, dt, count + 1)
               == Stream(k, s, n, PositionAt(pushes, size, sample), sample, dt, count)
                  + FrameAt(k, s, n, PositionAt(pushes, size, now), EndWraps(k.half, now))
            && (AllClean(size, k.half, sample, dt, count + 1)
                <==> AllClean(size, k.half, sample, dt, count) && Clean(size, k.half, now))
    ensures (count + 1) * dt == count * dt + dt
  {
    hide FrameAt, Clean, EndWraps;
    assert PositionAt(pushes, size, sample + count * dt) == PositionAt(pushes, size, sample) + count * dt;
  }

  /** count output frames have been made, starting at sample0 within the current frame. */
  ghost predicate Produced(k: Kernel, s: seq<real>, n: nat, pushes: nat, size: nat, sample0: int, dt: nat, count: nat,
                           made: seq<real>, sample: int) {
    && made == Stream(k, s, n, PositionAt(pushes, size, sample0), sample0, dt, count)
    && sample == sample0 + count * dt
    && AllClean(size, k.half, sample0, dt, count)
  }

  lemma {:induction false} ProducedNext(k: Kernel, s: seq<real>, n: nat, pushes: nat, size: nat, sample0: int, dt: nat,
                                        count: nat, made: seq<real>, sample: int)
    requires Produced(k, s, n, pushes, size, sample0, dt, count, made, sample) && Clean(size, k.half, sample)
    ensures Produced(k, s, n, pushes, size, sample0, dt, count + 1,
                     made + FrameAt(k, s, n, PositionAt(pushes, size, sample), EndWraps(k.half, sample)), sample + dt)
  {
    hide Clean, FrameAt, PositionAt, EndWraps;
    PopAdvances(k, s, n, dt, count, size, pushes, sample0);
  }

  lemma {:induction false} ProducedIs(k: Kernel, s: seq<real>, n: nat, pushes: nat, size: nat, sample0: int, dt: nat,
                                      count: nat, made: seq<real>, sample: int)
    requires Produced(k, s, n, pushes, size, sample0, dt, count, made, sample)
    ensures made == Stream(k, s, n, PositionAt(pushes, size, sample0), sample0, dt, count)
    ensures size * ONE + k.half <= WRAP ==> made == WholeStream(k, s, n, PositionAt(pushes, size, sample0), dt, count)
    ensures sample == sample0 + count * dt && AllClean(size, k.half, sample0, dt, count)
  {
    hide AllClean, PositionAt;
    if size * ONE + k.half <= WRAP {
      WholeIfEndsFit(k, s, n, size, PositionAt(pushes, size, sample0), sample0, dt, count);
    }
  }

  lemma {:induction false} ProducedNone(k: Kernel, s: seq<real>, n: nat, pushes: nat, size: nat, sample0: int, dt: nat)
    ensures Produced(k, s, n, pushes, size, sample0, dt, 0, [], sample0)
  {
  }

  ghost predicate AccountedAt(pushes: nat, size: nat, sample: int, advanced: int, skipped: nat) {
    if pushes < 3 then sample == 0 && advanced == 0 && skipped == 0
    else PositionAt(pushes, size, sample) == (1 + skipped) * size * ONE + advanced
  }

  lemma {:induction false} StepAccounted(pushes: nat, size: nat, sample: int, advanced: int, skipped: nat, step: int)
    requires AccountedAt(pushes, size, sample, advanced, skipped) && pushes >= 3
    ensures AccountedAt(pushes, size, sample + step, advanced + step, skipped)
  {
  }

  lemma {:induction false} PushAccounted(pushes: nat, size: nat, sample: int, advanced: int, skipped: nat)
    requires AccountedAt(pushes, size, sample, advanced, skipped) && size > 0
    ensures if sample >= size * ONE then AccountedAt(pushes + 1, size, sample - size * ONE, advanced, skipped)
            else AccountedAt(pushes + 1, size, sample, advanced, if pushes >= 3 then skipped + 1 else skipped)
  {
    hide PositionAt;
    PositionStep(pushes, size, sample);
    FirstPosition(size);
    assert (1 + (skipped + 1)) * size == (1 + skipped) * size + size;
  }

  lemma {:induction false} FirstPosition(size: nat)
    ensures PositionAt(3, size, 0) == size * ONE
  {
  }

  lemma {:induction false} DoubleMinus(size: nat, sample: U32)
    ensures var exact := 2 * size * ONE - sample;
            Sub32((2 * size * ONE) % WRAP, sample) == exact <==> 0 <= exact < WRAP
  {
    SubMod(2 * size * ONE, sample);
  }

  /** Time plus step stays below 2^32; all windows that the profiles use are at least 16. */
  predicate SizesFit(frameSize: nat, windowSize: nat) {
    0 < frameSize <= MAX_FRAME && 1 <= windowSize <= 1024 && (frameSize <= 2048 || windowSize >= 16)
  }

  datatype PopStatus = Done | Failed(outcome: Outcome)

  class BuiltinResampler {
    const numCh: nat          // in_spec_.num_channels()
    const frameSize: nat      // frame_size_ch_
    const frameLen: nat       // frame_size_
    const windowSize: nat     // window_size_
    const interpBits: nat     // window_interp_bits_
    const table: seq<real>    // sinc_table_

    var frames: seq<array<real>>
    var nReady: nat
    var prev: array?<real>
    var curr: array?<real>
    var next: array?<real>

    var scaling: real
    var qtHalfWindow: U32
    var qtSincStep: U32
    var qtSample: U32
    var qtDt: U32

    ghost var pushed: seq<seq<real>>  // all committed input frames
    ghost var pushing: bool           // between begin and end of a push
    ghost var advanced: nat           // sum of all steps taken
    ghost var skipped: nat            // pushes that came before the current frame was used up

    ghost predicate Shape()
      reads this`frames, this`pushed, this`nReady
    {
      && 0 < numCh && SizesFit(frameSize, windowSize)
      && interpBits <= 20 && |table| == windowSize * Pow2(interpBits) + 2
      && |frames| == 3
      && frames[0] != frames[1] && frames[0] != frames[2] && frames[1] != frames[2]
      && (forall i :: 0 <= i < 3 ==> frames[i].Length == frameLen)
      && frameLen == frameSize * numCh
      && Uniform(pushed, frameLen)
      && nReady == if |pushed| < 3 then |pushed| else 3
    }

    /** The frames committed before the ring is full sit at the front of the ring. */
    ghost predicate RingFilling()
      reads this`frames, this`pushed, frames
    {
      |frames| == 3 && forall i :: 0 <= i < |pushed| < 3 ==> frames[i][..] == pushed[i]
    }

    ghost predicate Valid()
      reads this`frames, this`pushed, this`nReady, this`pushing, this`prev, this`curr, this`next, frames
    {
      && Shape() && !pushing
      && RingFilling()
      && (|pushed| >= 3 ==>
            && prev == frames[0] && curr == frames[1] && next == frames[2]
            && frames[0][..] == pushed[|pushed| - 3]
            && frames[1][..] == pushed[|pushed| - 2]
            && frames[2][..] == pushed[|pushed| - 1])
    }

    /** A push is open: buf is the frame the caller is filling. */
    ghost predicate Pushing(buf: array<real>)
      reads this, frames
    {
      && Shape() && pushing
      && RingFilling()
      && buf == frames[if |pushed| < 3 then |pushed| else 2]
      && (|pushed| >= 3 ==>
            frames[0][..] == pushed[|pushed| - 2] && frames[1][..] == pushed[|pushed| - 1])
    }

    ghost function TheKernel(): Kernel
      reads this`qtSincStep, this`qtHalfWindow, this`scaling
    {
      Kernel(windowSize, interpBits, table, qtSincStep, qtHalfWindow, scaling)
    }

    /** set_scaling() has accepted a factor. */
    ghost predicate Configured()
      reads this`qtSincStep, this`qtHalfWindow, this`qtDt
    {
      && qtSincStep > 0 && qtHalfWindow >= ONE
      && qtDt < frameSize * ONE && frameSize * ONE + qtDt <= WRAP
      && qtHalfWindow * qtSincStep <= windowSize * ONE * ONE
    }

    /** No output time has a window whose end exceeds 32 bits. */
    ghost predicate EndsFit()
      reads this`qtHalfWindow
    {
      frameSize * ONE + qtHalfWindow <= WRAP
    }

    /** Time of the next output sample, counted from the first sample ever pushed. */
    ghost function Position(): int
      reads this
    {
      PositionAt(|pushed|, frameSize, qtSample)
    }

    /**
     * The next output position is one frame plus the sum of all steps taken, whatever the scaling did
     * meanwhile, and one frame more for every push that did not wait for the current frame to be used up.
     */
    ghost predicate Accounted()
      reads this
    {
      AccountedAt(|pushed|, frameSize, qtSample, advanced, skipped)
    }

    constructor (numCh: nat, frameSize: nat, windowSize: nat, interpBits: nat, table: seq<real>)
      requires 0 < numCh && SizesFit(frameSize, windowSize) && interpBits <= 20
      requires |table| == windowSize * Pow2(interpBits) + 2
      ensures Valid() && pushed == [] && qtSample == 0 && skipped == 0 && Accounted()
      ensures fresh(frames)
      ensures this.numCh == numCh && this.frameSize == frameSize && this.windowSize == windowSize
    {
      this.numCh, this.frameSize, this.windowSize := numCh, frameSize, windowSize;
      this.interpBits, this.table := interpBits, table;
      frameLen := frameSize * numCh;
      var f0, f1, f2 := new real[frameSize * numCh], new real[frameSize * numCh], new real[frameSize * numCh];
      frames := [f0, f1, f2];
      nReady, prev, curr, next := 0, null, null, null;
      scaling, qtHalfWindow, qtSincStep, qtSample, qtDt := 1.0, windowSize * ONE, 0, 0, 0;
      pushed, pushing, advanced, skipped := [], false, 0, 0;
    }

    /** Rejected factors change nothing; accepted ones leave a configured kernel behind. */
    method SetScaling(inputRate: nat, outputRate: nat, multiplier: real) returns (ok: bool)
      requires Shape()
      modifies this`scaling, this`qtHalfWindow, this`qtSincStep, this`qtDt
      ensures ok <==>
              && inputRate > 0 && outputRate > 0
              && Accepts(windowSize, frameSize, inputRate as real / outputRate as real * multiplier)
      ensures !ok ==> unchanged(this)
      ensures ok ==>
              && Configured() && (frameSize <= 2048 ==> EndsFit())
              && scaling == inputRate as real / outputRate as real * multiplier
              && qtHalfWindow == HalfFor(windowSize, scaling) && qtSincStep == StepFor(scaling)
              && qtDt == ToFixed(scaling)
    {
      hide Pow2;
      if inputRate == 0 || outputRate == 0 {
        return false;
      }
      var newScaling := inputRate as real / outputRate as real * multiplier;
      if newScaling <= 0.0 {
        return false;
      }
      if windowSize as real * newScaling > frameSize as real - 1.0 {
        return false;
      }
      ScaledBounds(windowSize, frameSize, newScaling);
      ScaledKernelFits(windowSize, newScaling);
      if newScaling > 1.0 {
        var newHalf: U32 := ToFixed(windowSize as real / CUTOFF * newScaling);
        OutOfBoundsCheck(frameSize, newHalf);
        var outOfBounds :=
          ToSize(QCeil(Sub32(frameSize * ONE, newHalf))) > frameSize || ToSize(QFloor(newHalf)) + 1 > frameSize;
        if outOfBounds {
          return false;
        }
        qtSincStep := ToFixed(CUTOFF / newScaling);
        qtHalfWindow := newHalf;
      } else {
        qtSincStep := ToFixed(CUTOFF);
        qtHalfWindow := ToFixed(windowSize as real / CUTOFF);
      }
      scaling := newScaling;
      qtDt := ToFixed(scaling);
      return true;
    }

    /** Rotates the ring and hands out its last frame. Earlier frames keep their contents. */
    method BeginPushInput() returns (buf: array<real>)
      requires Valid()
      modifies this`frames, this`pushing
      ensures Pushing(buf)
      ensures frames == if old(nReady) < 3 then old(frames)
                        else [old(frames)[1], old(frames)[2], old(frames)[0]]
    {
      pushing := true;
      if nReady < 3 {
        return frames[nReady];
      }
      var last := frames[0];
      frames := [frames[1], frames[2], last];
      return frames[2];
    }

    /**
     * Commits the frame the caller has filled. The position of the next output sample
     * stays where it was if the current frame was used up, and otherwise skips a frame.
     */
    method EndPushInput(buf: array<real>)
      requires Pushing(buf)
      modifies this`prev, this`curr, this`next, this`nReady, this`qtSample, this`pushed, this`pushing, this`skipped
      ensures Valid()
      ensures skipped == old(skipped) + if |old(pushed)| >= 3 && old(qtSample) < frameSize * ONE then 1 else 0
      ensures old(Accounted()) ==> Accounted()
      ensures pushed == old(pushed) + [buf[..]]
      ensures qtSample == if old(qtSample) >= frameSize * ONE then old(qtSample) - frameSize * ONE else old(qtSample)
      ensures Position() == if old(qtSample) >= frameSize * ONE then old(Position())
                            else old(Position()) + frameSize * ONE
    {
      ghost var sample, count := qtSample, |pushed|;
      ghost var accounted := Accounted();
      Commit(buf);
      hide Pow2, PositionAt, AccountedAt, Valid, Shape;
      PositionStep(count, frameSize, sample);
      if accounted {
        PushAccounted(count, frameSize, sample, advanced, skipped);
      }
      if count >= 3 && sample < frameSize * ONE {
        skipped := skipped + 1;
      }
      if qtSample >= frameSize * ONE {
        qtSample := qtSample - frameSize * ONE;
      }
    }

    /** Makes the ring frames the previous, current and next one. */
    method Commit(buf: array<real>)
      requires Pushing(buf)
      modifies this`prev, this`curr, this`next, this`nReady, this`pushed, this`pushing
      ensures Valid() && frameSize > 0 && pushed == old(pushed) + [buf[..]]
    {
      hide Pow2;
      prev, curr, next := frames[0], frames[1], frames[2];
      if nReady < 3 {
        nReady := nReady + 1;
      }
      pushed := pushed + [buf[..]];
      pushing := false;
    }

    lemma {:induction false} KernelReady()
      requires Shape() && Configured()
      ensures TheKernel().Valid() && TheKernel().FitsTable()
      ensures qtSincStep > 0 && qtHalfWindow >= ONE
      ensures frameSize * ONE + qtDt <= WRAP && numCh > 0 && 0 < frameSize < 4096 && nReady <= 3
      ensures nReady == 3 ==> |pushed| >= 3
    {
      assert Pow2(20 - interpBits) >= 1;
    }

    /** One output frame: all channels at the current time. */
    method PopFrame(out: array<real>, outPos: nat) returns (outcome: Outcome)
      requires Valid() && Configured() && nReady == 3 && qtSample < frameSize * ONE
      requires outPos + numCh <= out.Length
      requires out !in frames
      modifies out
      ensures out[..outPos] == old(out[..outPos])
      ensures outcome.Value? <==> Clean(frameSize, qtHalfWindow, qtSample)
      ensures outcome.Panic? <==> SticksOut(frameSize, qtHalfWindow, qtSample)
      ensures outcome.Value? ==>
                out[outPos .. outPos + numCh]
                == FrameAt(TheKernel(), Flatten(pushed), numCh, Position(), EndWraps(qtHalfWindow, qtSample))
    {
      hide Pow2, Expected, PositionAt, Flatten, SampleAt, Clean, SticksOut, EndWraps, Configured, Kernel.Valid, Kernel.FitsTable;
      KernelReady();
      var k := Kernel(windowSize, interpBits, table, qtSincStep, qtHalfWindow, scaling);
      outcome := Panic;
      var channel := 0;
      while channel < numCh
        invariant 0 <= channel <= numCh
        invariant out[..outPos] == old(out[..outPos])
        invariant channel > 0 ==> outcome.Value? && Clean(frameSize, qtHalfWindow, qtSample)
        invariant channel > 0 ==> !SticksOut(frameSize, qtHalfWindow, qtSample)
        invariant forall ch :: 0 <= ch < channel ==>
          out[outPos + ch] == SampleAt(k, Flatten(pushed), numCh, ch, Position(), EndWraps(qtHalfWindow, qtSample))
      {
        outcome := ResampleOne(k, numCh, channel, frameSize, qtSample, prev, curr, next);
        RingSeesWholeSignal(k, pushed, numCh, channel, frameSize, qtSample);
        if !outcome.Value? {
          return;
        }
        out[outPos + channel] := outcome.v;
        channel := channel + 1;
      }
    }

    /** One output frame and the step to the next time. */
    method PopStep(out: array<real>, outPos: nat) returns (outcome: Outcome)
      requires Shape() && Valid() && Configured() && nReady == 3 && qtSample < frameSize * ONE
      requires outPos + numCh <= out.Length
      requires out !in frames
      modifies this`qtSample, this`advanced, out
      ensures Valid()
      ensures out[..outPos] == old(out[..outPos])
      ensures outcome.Value? <==> Clean(frameSize, qtHalfWindow, old(qtSample))
      ensures outcome.Panic? <==> SticksOut(frameSize, qtHalfWindow, old(qtSample))
      ensures outcome.Value? ==>
                out[outPos .. outPos + numCh]
                == FrameAt(TheKernel(), Flatten(pushed), numCh, old(Position()), EndWraps(qtHalfWindow, old(qtSample)))
      ensures qtSample == old(qtSample) + if outcome.Value? then qtDt else 0
      ensures advanced == old(advanced) + if outcome.Value? then qtDt else 0
      ensures old(Accounted()) ==> Accounted()
    {
      hide Pow2, Clean, Flatten, PositionAt, FrameAt, Configured, AccountedAt, SticksOut, EndWraps, Shape, Valid;
      KernelReady();
      outcome := PopFrame(out, outPos);
      if !outcome.Value? {
        return;
      }
      if Accounted() {
        StepAccounted(|pushed|, frameSize, qtSample, advanced, skipped, qtDt);
      }
      qtSample := Add32(qtSample, qtDt);
      advanced := advanced + qtDt;
    }

    /**
     * Computes output frames until the buffer is full or the current frame is used up.
     * Every frame is interpolated from the whole pushed signal at the next position; a window
     * loses its right half where its end exceeds 32 bits.
     */
    method PopOutput(out: array<real>, outSize: nat) returns (status: PopStatus, outPos: nat, ghost count: nat)
      requires Shape() && Configured()
      requires Valid() || nReady < 3 || qtSample >= frameSize * ONE
      requires outSize <= out.Length && outSize % numCh == 0
      requires out !in frames
      modifies this`qtSample, this`advanced, out
      ensures Valid() || nReady < 3 || qtSample >= frameSize * ONE
      ensures outPos == count * numCh <= outSize
      ensures nReady < 3 ==> status == Done && count == 0
      ensures nReady == 3 ==>
              out[..outPos] == Stream(TheKernel(), Flatten(pushed), numCh, old(Position()), old(qtSample), qtDt, count)
      ensures nReady == 3 && EndsFit() ==>
              out[..outPos] == WholeStream(TheKernel(), Flatten(pushed), numCh, old(Position()), qtDt, count)
      ensures qtSample == old(qtSample) + count * qtDt
      ensures AllClean(frameSize, qtHalfWindow, old(qtSample), qtDt, count)
      ensures match status
              case Done => nReady == 3 ==> outPos == outSize || qtSample >= frameSize * ONE
              case Failed(o) =>
                && outPos < outSize && qtSample < frameSize * ONE && !Clean(frameSize, qtHalfWindow, qtSample)
                && o == if SticksOut(frameSize, qtHalfWindow, qtSample) then Panic else PastEnd
      ensures advanced == old(advanced) + count * qtDt
      ensures old(Accounted()) ==> Accounted()
    {
      hide Pow2, Clean, Flatten, PositionAt, FrameAt, Configured, Shape, Valid, AccountedAt, SticksOut, EndWraps, Produced, Stream,
           WholeStream, AllClean;
      KernelReady();
      status, outPos, count := Done, 0, 0;
      ghost var k, signal := TheKernel(), Flatten(pushed);
      ProducedNone(k, signal, numCh, |pushed|, frameSize, qtSample, qtDt);
      ProducedIs(k, signal, numCh, |pushed|, frameSize, old(qtSample), qtDt, count, [], qtSample);
      if nReady < 3 {
        return;
      }
      while outPos < outSize
        invariant outPos == count * numCh <= outSize
        invariant Shape() && Configured()
        invariant Valid() || qtSample >= frameSize * ONE
        invariant Produced(k, signal, numCh, |pushed|, frameSize, old(qtSample), qtDt, count, out[..outPos], qtSample)
        invariant qtSample - old(qtSample) == advanced - old(advanced)
        invariant old(Accounted()) ==> Accounted()
        decreases outSize - outPos
      {
        if qtSample >= frameSize * ONE {
          break;
        }
        NextFrameFits(count, numCh, outSize);
        ghost var made, sample := out[..outPos], qtSample;
        var outcome := PopStep(out, outPos);
        if !outcome.Value? {
          status := Failed(outcome);
          break;
        }
        ProducedNext(k, signal, numCh, |pushed|, frameSize, old(qtSample), qtDt, count, made, sample);
        assert out[..outPos + numCh] == made + out[outPos .. outPos + numCh];
        outPos := outPos + numCh;
        count := count + 1;
      }
      ProducedIs(k, signal, numCh, |pushed|, frameSize, old(qtSample), qtDt, count, out[..outPos], qtSample);
    }

    /**
     * Input not yet consumed, per channel, in fixed point. It is the pushed time minus
     * the position of the next output sample, unless the 32-bit difference wraps.
     */
    method NLeftToProcess() returns (left: U32)
      requires Shape()
      ensures left == |pushed| * frameSize * ONE - Position() <==> 0 <= 2 * frameSize * ONE - qtSample < WRAP
    {
      hide Pow2, PositionAt, Shape;
      left := Sub32((2 * frameSize * ONE) % WRAP, qtSample);
      DoubleMinus(frameSize, qtSample);
      LeftOver(|pushed|, frameSize, qtSample);
    }
  }

  // ---------------------------------------------------------------- a read behind the frame

  const TOUCHING_HALF: U32 := 18641351

  lemma {:induction false} SlowSteps(step: nat)
    requires step == 932067 || step == 932068
    ensures var scaling := step as real / ONE as real;
            && Accepts(16, 24, scaling) && ToFixed(scaling) == step
            && HalfFor(16, scaling) == TOUCHING_HALF
  {
    var scaling := step as real / ONE as real;
    assert scaling * ONE as real == step as real;
    assert 0.0 < scaling <= 1.0;
    assert 18641351.0 <= 16.0 / CUTOFF * ONE as real < 18641352.0;
  }

  lemma {:induction false} CleanBefore(sample: nat)
    requires sample < 6524473
    ensures Clean(24, TOUCHING_HALF, sample)
  {
  }

  lemma {:induction false} NotCleanThere()
    ensures !Clean(24, TOUCHING_HALF, 6524473) && !SticksOut(24, TOUCHING_HALF, 6524473)
  {
  }

  /** The low profile at equal rates, mono: a window of 16 and frames of 24 samples. */
  ghost predicate LowProfile(r: BuiltinResampler) { r.numCh == 1 && r.frameSize == 24 && r.windowSize == 16 }

  method FillRing(table: seq<real>) returns (r: BuiltinResampler)
    requires |table| == 16 * Pow2(6) + 2
    ensures fresh(r) && fresh(r.frames) && LowProfile(r) && r.Valid() && r.nReady == 3 && r.qtSample == 0
  {
    r := new BuiltinResampler(1, 24, 16, 6, table);
    hide Pow2;
    var n := 0;
    while n < 3
      invariant 0 <= n <= 3 && r.Valid() && |r.pushed| == n && r.qtSample == 0
      invariant fresh(r) && fresh(r.frames) && LowProfile(r)
    {
      var buf := r.BeginPushInput();
      r.EndPushInput(buf);
      n := n + 1;
    }
  }

  method TakeSteps(r: BuiltinResampler, out: array<real>, step: nat, wanted: nat)
    requires LowProfile(r) && r.Valid() && r.nReady == 3 && out !in r.frames
    requires (step == 932067 || step == 932068) && 3 <= wanted <= 4 && wanted <= out.Length
    requires r.qtSample + wanted * step <= 6524473
    modifies r`scaling, r`qtHalfWindow, r`qtSincStep, r`qtDt, r`qtSample, r`advanced, out
    ensures r.Valid() && r.Configured() && r.qtHalfWindow == TOUCHING_HALF
    ensures r.qtSample == old(r.qtSample) + wanted * step
  {
    hide Clean, SticksOut, Pow2, Accepts, HalfFor, StepFor, ToFixed, PositionAt, Flatten;
    SlowSteps(step);
    SameRates(step);
    ghost var start := r.qtSample;
    var ok := r.SetScaling(1, 1, step as real / ONE as real);
    var status, outPos, count := r.PopOutput(out, wanted);
    CleanSteps(start, step, wanted, count);
  }

  /**
   * Three output samples with one accepted factor and four with the next larger one, and the eighth
   * reads behind the current frame.
   */
  method ReadsBehindFrame(table: seq<real>) returns (status: PopStatus)
    requires |table| == 16 * Pow2(6) + 2
    ensures status == Failed(PastEnd)
  {
    hide Clean, SticksOut, Pow2, PositionAt, Flatten;
    var r := FillRing(table);
    var out := new real[4];
    TakeSteps(r, out, 932067, 3);
    TakeSteps(r, out, 932068, 4);
    var outPos: nat;
    ghost var count: nat;
    status, outPos, count := r.PopOutput(out, 1);
    NotCleanThere();
    NoStep(count, r.qtDt);
  }

  lemma {:induction false} NoStep(count: nat, step: nat)
    ensures count == 0 ==> count * step == 0
  {
  }

  lemma {:induction false} SameRates(step: nat)
    ensures 1 as real / 1 as real * (step as real / ONE as real) == step as real / ONE as real
  {
  }

  /** None of these steps fails, and the current frame lasts for all of them. */
  lemma {:induction false} CleanSteps(start: nat, step: nat, wanted: nat, count: nat)
    requires count <= wanted && (wanted == 3 || wanted == 4) && start + wanted * step <= 6524473 && step > 0
    ensures count < wanted ==> Clean(24, TOUCHING_HALF, start + count * step) && start + count * step < 24 * ONE
    ensures start + count * step < 24 * ONE
  {
    if count == 0 {
    } else if count == 1 {
    } else if count == 2 {
    } else if count == 3 {
    } else {
      assert count == 4;
    }
    if count < wanted {
      CleanBefore(start + count * step);
    }
  }
}
