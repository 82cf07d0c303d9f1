/**
 * The decimation resampler object: an accumulator decides when a frame of input is dropped
 * or the last output frame is repeated. Exact arithmetic.
 */
module Decimation {
  import opened Arith
  import opened DecimationSpec

  const INPUT_FRAME_SIZE := 16

  function AbsReal(x: real): real { if x < 0.0 then -x else x }

  /** Frames that were not simply copied. */
  function Changes(edits: seq<Edit>): nat {
    if edits == [] then 0
    else Changes(edits[..|edits| - 1]) + if edits[|edits| - 1] == Copy then 0 else 1
  }

  lemma {:induction false} ChangesCopies(edits: seq<Edit>, k: nat)
    ensures Changes(edits + Copies(k)) == Changes(edits)
    decreases k
  {
    if k == 0 {
      assert edits + Copies(0) == edits;
    } else {
      ChangesCopies(edits, k - 1);
      var all := edits + Copies(k);
      assert all[..|all| - 1] == edits + Copies(k - 1);
    }
  }

  lemma {:induction false} ChangesNext(edits: seq<Edit>, e: Edit)
    ensures Changes(edits + [e]) == Changes(edits) + if e == Copy then 0 else 1
  {
    assert (edits + [e])[..|edits|] == edits;
  }

  /** The range check of set_scaling: a full input buffer changes by at most one frame. */
  predicate Accepts(n: nat, multiplier: real) {
    multiplier > 0.0 &&
    var size := (INPUT_FRAME_SIZE * n) as real;
    AbsReal(size / multiplier - size) <= n as real
  }

  /** A partly filled buffer changes by no more than a full one. */
  lemma {:induction false} PartialBuffer(n: nat, multiplier: real, len: nat)
    requires Accepts(n, multiplier) && len <= INPUT_FRAME_SIZE * n
    ensures AbsReal(len as real / multiplier - len as real) <= n as real
  {
    var size, l := (INPUT_FRAME_SIZE * n) as real, len as real;
    var r := 1.0 / multiplier - 1.0;
    assert size / multiplier - size == size * r;
    assert l / multiplier - l == l * r;
    ScaledAbs(l, size, r);
  }

  lemma {:induction false} ScaledAbs(a: real, b: real, r: real)
    requires 0.0 <= a <= b
    ensures AbsReal(a * r) <= AbsReal(b * r)
  {
    if r >= 0.0 {
      assert a * r <= b * r && a * r >= 0.0;
    } else {
      assert a * (-r) <= b * (-r) && a * (-r) >= 0.0;
    }
  }

  /** memcpy between two buffers */
  method CopySamples(dst: array<real>, dstPos: nat, src: array<real>, srcPos: nat, n: nat)
    requires dst != src && dstPos + n <= dst.Length && srcPos + n <= src.Length
    modifies dst
    ensures dst[dstPos .. dstPos + n] == src[srcPos .. srcPos + n]
    ensures dst[..dstPos] == old(dst[..dstPos])
  {
    forall i | 0 <= i < n {
      dst[dstPos + i] := src[srcPos + i];
    }
  }

  /** Only whole frames of n samples. */
  predicate Whole(n: nat, size: nat)
    requires n > 0
  {
    size % n == 0
  }

  lemma {:induction false} WholeZero(n: nat)
    requires n > 0
    ensures Whole(n, 0)
  {
  }

  lemma {:induction false} WholeSum(n: nat, a: nat, b: nat)
    requires n > 0 && Whole(n, a) && Whole(n, b)
    ensures Whole(n, a + b)
  {
    SumOfMultiples(n, a, b);
  }

  lemma {:induction false} WholeNext(n: nat, a: nat, b: nat)
    requires n > 0 && Whole(n, a) && Whole(n, b) && a < b
    ensures Whole(n, a + n) && a + n <= b
  {
    NextMultiple(n, a, b);
  }

  lemma {:induction false} WholeFrames(n: nat, size: nat) returns (k: nat)
    requires n > 0 && Whole(n, size) && size > 0
    ensures k > 0 && size == k * n
  {
    NextMultiple(n, 0, size);
    k := size / n;
  }

  lemma {:induction false} WholeBuffer(n: nat)
    requires n > 0
    ensures Whole(n, INPUT_FRAME_SIZE * n)
  {
    DivExact(n, INPUT_FRAME_SIZE);
  }

  class DecimationResampler {
    const numCh: nat
    const inBuf: array<real>
    const lastBuf: array<real>

    var inner: seq<seq<real>>   // what pop_output() of the inner resampler will return, call by call
    var useInner: bool
    var multiplier: real
    var inSize: nat
    var inPos: nat
    var outAcc: real

    ghost var input: seq<real>  // everything that has been put into inBuf
    ghost var output: seq<real> // everything that has been popped
    ghost var edits: seq<Edit>  // how the output was made
    ghost var mark: nat         // how much of it before the current content of inBuf
    ghost var ideal: real       // sum of size / multiplier over all fillings of inBuf
    ghost var refills: nat      // how often inBuf was filled with something
    ghost var untouched: bool       // inBuf has been filled and nothing was taken from it yet

    /** How far the accumulator is ahead of the unread input. */
    ghost function Drift(): real
      reads this
    {
      outAcc - (inSize as real - inPos as real)
    }

    ghost predicate Shape()
      reads this
    {
      && numCh > 0 && inBuf.Length == INPUT_FRAME_SIZE * numCh && lastBuf.Length == numCh && inBuf != lastBuf
      && Accepts(numCh, multiplier)
      && inPos <= inSize <= inBuf.Length && Whole(numCh, inPos) && Whole(numCh, inSize)
      && (forall i :: 0 <= i < |inner| ==> |inner[i]| <= inBuf.Length && Whole(numCh, |inner[i]|))
    }

    /** The output is the recorded edit of the input, up to the part still unread. */
    ghost predicate Recorded()
      reads this, inBuf, lastBuf
      requires Shape()
    {
      var s := Replay(numCh, input, edits);
      && s.output == output && s.last == lastBuf[..]
      && s.used + (inSize - inPos) == |input|
      && inBuf[inPos..inSize] == input[s.used..]
    }

    ghost predicate Balanced()
      reads this
      requires Shape()
    {
      && outAcc == ideal - |output| as real
      && (if untouched then AbsReal(Drift()) < 2.0 * numCh as real else AbsReal(Drift()) < numCh as real)
      && mark <= |edits| && Changes(edits[mark..]) <= 1
      && (untouched ==> inPos < inSize && mark == |edits|)
      && Changes(edits) + (if untouched then 1 else 0) <= refills
    }

    ghost predicate Valid()
      reads this, inBuf, lastBuf
    {
      Shape() && Recorded() && Balanced()
    }

    constructor (numCh: nat, inner: seq<seq<real>>, useInner: bool)
      requires numCh > 0
      requires forall i :: 0 <= i < |inner| ==> |inner[i]| <= INPUT_FRAME_SIZE * numCh && Whole(numCh, |inner[i]|)
      ensures Valid() && input == [] && output == [] && ideal == 0.0
      ensures fresh(inBuf) && fresh(lastBuf)
    {
      this.numCh := numCh;
      inBuf := new real[INPUT_FRAME_SIZE * numCh];
      lastBuf := new real[numCh](_ => 0.0);
      this.inner, this.useInner, multiplier := inner, useInner, 1.0;
      inSize, inPos, outAcc := 0, 0, 0.0;
      input, output, edits, mark, ideal, untouched, refills := [], [], [], 0, 0.0, false, 0;
      new;
      assert lastBuf[..] == Silence(numCh);
    }

    /** Refused factors leave the multiplier; when the inner resampler refuses, it is in use all the same. */
    method SetScaling(inputRate: nat, outputRate: nat, newMultiplier: real, innerAccepts: bool) returns (ok: bool)
      requires Valid()
      modifies this`useInner, this`multiplier
      ensures Valid()
      ensures ok <==> inputRate > 0 && outputRate > 0 && Accepts(numCh, newMultiplier)
                      && (inputRate != outputRate ==> innerAccepts)
      ensures multiplier == if ok then newMultiplier else old(multiplier)
      ensures useInner == if inputRate > 0 && outputRate > 0 && Accepts(numCh, newMultiplier)
                          then inputRate != outputRate else old(useInner)
    {
      if inputRate == 0 || outputRate == 0 || newMultiplier <= 0.0
         || AbsReal(inBuf.Length as real / newMultiplier - inBuf.Length as real) > numCh as real {
        return false;
      }
      useInner := inputRate != outputRate;
      if useInner && !innerAccepts {
        return false;
      }
      multiplier := newMultiplier;
      return true;
    }

    /** Starts reading the first size samples of inBuf, the old content being used up. */
    method StartReading(size: nat)
      requires Valid() && inPos == inSize
      requires size <= inBuf.Length && Whole(numCh, size)
      modifies this`inSize, this`inPos, this`outAcc, this`input, this`mark, this`ideal, this`untouched, this`refills
      ensures Valid()
      ensures inPos == 0 && inSize == size
      ensures input == old(input) + inBuf[..size]
      ensures ideal == old(ideal) + size as real / multiplier
      ensures refills == old(refills) + if size > 0 then 1 else 0
    {
      hide Replay, Changes, Whole;
      WholeZero(numCh);
      PartialBuffer(numCh, multiplier, size);
      ReplayExtends(numCh, input, inBuf[..size], edits);
      var gain := size as real / multiplier;
      hide Accepts;
      inSize := size;
      inPos := 0;
      outAcc := outAcc + gain;
      input := input + inBuf[..size];
      ideal := ideal + gain;
      mark := |edits|;
      untouched := size > 0;
      if size > 0 {
        refills := refills + 1;
      }
      NoChanges(edits);
    }

    /** The caller has filled the buffer it got from begin_push_input(). */
    method EndPushInput()
      requires Valid() && !useInner
      requires inPos == inSize
      modifies this`inSize, this`inPos, this`outAcc, this`input, this`mark, this`ideal, this`untouched, this`refills
      ensures Valid()
      ensures inPos == 0 && inSize == inBuf.Length
      ensures input == old(input) + inBuf[..]
      ensures ideal == old(ideal) + inBuf.Length as real / multiplier
      ensures refills == old(refills) + 1
    {
      WholeBuffer(numCh);
      StartReading(inBuf.Length);
      assert inBuf[..inBuf.Length] == inBuf[..];
    }

    /** Takes the next block from the inner resampler. */
    method Refill()
      requires Valid() && inPos == inSize
      modifies this, inBuf
      ensures Valid() && inPos == 0
      ensures multiplier == old(multiplier) && useInner == old(useInner)
      ensures output == old(output) && edits == old(edits)
      ensures refills == old(refills) + if inSize > 0 then 1 else 0
      ensures if old(inner) == [] then inner == [] && inSize == 0
              else inner == old(inner)[1..] && inSize == |old(inner)[0]| && input == old(input) + old(inner)[0]
    {
      hide Replay, Changes, Whole;
      WholeZero(numCh);
      var block: seq<real> := [];
      if inner != [] {
        block := inner[0];
        inner := inner[1..];
      }
      forall i | 0 <= i < |block| {
        inBuf[i] := block[i];
      }
      assert inBuf[..|block|] == block;
      assert Recorded();
      StartReading(|block|);
    }

    /** The accumulator is a frame ahead: the last output frame is written once more. */
    method RepeatLast(out: array<real>, outPos: nat)
      requires Valid() && inPos < inSize
      requires outAcc.Floor >= (inSize - inPos) + numCh
      requires outPos + numCh <= out.Length
      requires out != inBuf && out != lastBuf
      modifies this`outAcc, this`output, this`edits, this`untouched, out
      ensures Valid() && !untouched
      ensures out[..outPos] == old(out[..outPos])
      ensures output == old(output) + out[outPos .. outPos + numCh]
    {
      hide Replay, Accepts, Changes, Whole;
      assert untouched;
      CopySamples(out, outPos, lastBuf, 0, numCh);
      assert lastBuf[0..numCh] == lastBuf[..];
      ReplayNext(numCh, input, edits, Repeat);
      outAcc := outAcc - numCh as real;
      output := output + lastBuf[..];
      OneChange(edits, Repeat);
      ChangesNext(edits, Repeat);
      edits := edits + [Repeat];
      untouched := false;
    }

    /** The accumulator is a frame behind: a frame of input is skipped. */
    method DropFrame()
      requires Valid() && inPos < inSize
      requires -((-outAcc).Floor) <= (inSize - inPos) - numCh
      modifies this`inPos, this`edits, this`untouched
      ensures Valid() && !untouched
      ensures inPos == old(inPos) + numCh
    {
      hide Replay, Accepts, Changes, Whole;
      assert untouched;
      WholeNext(numCh, inPos, inSize);
      ReplayNext(numCh, input, edits, Drop);
      OneChange(edits, Drop);
      ChangesNext(edits, Drop);
      ghost var rest := inBuf[inPos..inSize];
      inPos := inPos + numCh;
      assert inBuf[inPos..inSize] == rest[numCh..];
      edits := edits + [Drop];
      untouched := false;
    }

    /** Nothing to compensate: the drift is below one frame. */
    method Settle()
      requires Valid() && inPos < inSize
      requires outAcc.Floor < (inSize - inPos) + numCh && -((-outAcc).Floor) > (inSize - inPos) - numCh
      modifies this`untouched
      ensures Valid() && !untouched
    {
      hide Replay, Accepts, Changes, Whole;
      untouched := false;
    }

    /** Copies whole frames from input to output and remembers the last one. */
    method CopyFrames(out: array<real>, outPos: nat, size: nat)
      requires Valid() && !untouched
      requires 0 < size <= inSize - inPos && Whole(numCh, size)
      requires outPos + size <= out.Length
      requires out != inBuf && out != lastBuf
      modifies this`inPos, this`outAcc, this`output, this`edits, out, lastBuf
      ensures Valid()
      ensures inPos == old(inPos) + size
      ensures out[..outPos] == old(out[..outPos])
      ensures output == old(output) + out[outPos .. outPos + size]
    {
      hide Replay, Accepts, Changes, Whole;
      ghost var rest := inBuf[inPos..inSize];
      ghost var k := WholeFrames(numCh, size);
      ReplayRest(numCh, input, edits, rest, k, size);
      CopyOut(out, outPos, size);
      assert inBuf[inPos .. inPos + size] == rest[..size];
      WholeSum(numCh, inPos, size);
      inPos := inPos + size;
      assert inBuf[inPos..inSize] == rest[size..];
      outAcc := outAcc - size as real;
      output := output + out[outPos .. outPos + size];
      CopiesLater(edits, mark, k);
      ChangesCopies(edits, k);
      edits := edits + Copies(k);
    }

    /** The two copies of buffer contents. */
    method CopyOut(out: array<real>, outPos: nat, size: nat)
      requires numCh <= size && inPos + size <= inBuf.Length && outPos + size <= out.Length && lastBuf.Length == numCh
      requires out != inBuf && out != lastBuf && inBuf != lastBuf
      modifies out, lastBuf
      ensures out[outPos .. outPos + size] == inBuf[inPos .. inPos + size]
      ensures out[..outPos] == old(out[..outPos])
      ensures lastBuf[..] == inBuf[inPos .. inPos + size][size - numCh..]
    {
      CopySamples(out, outPos, inBuf, inPos, size);
      ghost var block := out[outPos .. outPos + size];
      CopySamples(lastBuf, 0, out, outPos + size - numCh, numCh);
      assert lastBuf[..] == lastBuf[0..numCh] == block[size - numCh..];
    }

    /** The part of a round before the copy: repeat, drop, or neither. */
    method Compensate(out: array<real>, outPos: nat, outSize: nat) returns (outPos': nat)
      requires Valid() && inPos < inSize
      requires outPos < outSize <= out.Length && Whole(numCh, outPos) && Whole(numCh, outSize)
      requires out != inBuf && out != lastBuf
      modifies this`inPos, this`outAcc, this`output, this`edits, this`untouched, out
      ensures Valid() && !untouched
      ensures outPos <= outPos' <= outSize && Whole(numCh, outPos')
      ensures out[..outPos] == old(out[..outPos])
      ensures output == old(output) + out[outPos..outPos']
      ensures old(inPos) <= inPos
      ensures inPos == inSize ==> old(inPos) < inPos
    {
      hide Recorded, Balanced, Whole;
      WholeZero(numCh);
      WholeNext(numCh, outPos, outSize);
      outPos' := outPos;
      if outAcc.Floor >= (inSize - inPos) + numCh {
        RepeatLast(out, outPos);
        outPos' := outPos + numCh;
      } else if -((-outAcc).Floor) <= (inSize - inPos) - numCh {
        DropFrame();
      } else {
        Settle();
      }
    }

    /** One round of pop_output with input at hand. */
    method Round(out: array<real>, outPos: nat, outSize: nat) returns (outPos': nat)
      requires Valid() && inPos < inSize
      requires outPos < outSize <= out.Length && Whole(numCh, outPos) && Whole(numCh, outSize)
      requires out != inBuf && out != lastBuf
      modifies this`inPos, this`outAcc, this`output, this`edits, this`untouched, lastBuf, out
      ensures Valid() && !untouched
      ensures outPos <= outPos' <= outSize && Whole(numCh, outPos')
      ensures out[..outPos] == old(out[..outPos])
      ensures output == old(output) + out[outPos..outPos']
      ensures old(inPos) <= inPos
      ensures old(inPos) < inPos || outPos < outPos'
    {
      hide Recorded, Balanced, Whole;
      WholeZero(numCh);
      outPos' := Compensate(out, outPos, outSize);
      var size := if inSize - inPos < outSize - outPos' then inSize - inPos else outSize - outPos';
      if size != 0 {
        ghost var mid, before := outPos', out[..];
        RestIsWhole(numCh, inPos, inSize, outPos', outSize);
        CopyFrames(out, outPos', size);
        WholeSum(numCh, outPos', size);
        outPos' := outPos' + size;
        Continued(old(output), before, out[..], outPos, mid, outPos');
      }
    }

    /**
     * Produces output until the buffer is full or the input is used up. Nothing but whole
     * frames is copied, repeated or dropped, and used-up input leaves a drift below one frame.
     */
    method PopOutput(out: array<real>, outSize: nat) returns (outPos: nat)
      requires Valid()
      requires outSize <= out.Length && Whole(numCh, outSize)
      requires out != inBuf && out != lastBuf
      modifies this, inBuf, lastBuf, out
      ensures Valid()
      ensures outPos <= outSize
      ensures output == old(output) + out[..outPos]
      ensures outPos < outSize ==> inPos == inSize
      ensures inPos == inSize ==> AbsReal(ideal - |output| as real) < numCh as real
      ensures !useInner ==> input == old(input) && ideal == old(ideal)
    {
      hide Recorded, Balanced, Whole;
      WholeZero(numCh);
      outPos := 0;
      while outPos < outSize
        invariant Valid()
        invariant outPos <= outSize && Whole(numCh, outPos)
        invariant output == old(output) + out[..outPos]
        invariant useInner == old(useInner) && (!useInner ==> input == old(input) && ideal == old(ideal))
        decreases |inner|, (outSize - outPos) + (inSize - inPos)
      {
        if inPos == inSize && useInner {
          Refill();
        }
        if inPos == inSize {
          break;
        }
        ghost var start, made := outPos, out[..outPos];
        outPos := Round(out, outPos, outSize);
        assert out[..outPos] == made + out[start..outPos];
      }
      ExhaustedDrift();
    }

    /** Whenever the input is used up, the output is less than one frame away from the ideal length. */
    lemma {:induction false} ExhaustedDrift()
      requires Valid()
      ensures inPos == inSize ==> AbsReal(ideal - |output| as real) < numCh as real
    {
    }

    /** Over a whole run there are no more drops and repeats than fillings of the buffer, and one at most since the last. */
    lemma {:induction false} FewChanges()
      requires Valid()
      ensures Changes(edits) <= refills && mark <= |edits| && Changes(edits[mark..]) <= 1
      ensures Replay(numCh, input, edits).output == output
    {
    }
  }

  lemma {:induction false} RestIsWhole(n: nat, inPos: nat, inSize: nat, outPos: nat, outSize: nat)
    requires n > 0 && inPos < inSize && outPos < outSize
    requires Whole(n, inPos) && Whole(n, inSize) && Whole(n, outPos) && Whole(n, outSize)
    ensures Whole(n, inSize - inPos) && Whole(n, outSize - outPos)
  {
    NextMultiple(n, inPos, inSize);
    NextMultiple(n, outPos, outSize);
  }

  lemma {:induction false} Continued(made: seq<real>, before: seq<real>, after: seq<real>, start: nat, mid: nat, end: nat)
    requires start <= mid <= end <= |after| && mid <= |before| && after[..mid] == before[..mid]
    ensures after[..start] == before[..start]
    ensures made + before[start..mid] + after[mid..end] == made + after[start..end]
  {
    assert after[..start] == after[..mid][..start];
    assert after[start..mid] == after[..mid][start..] == before[start..mid];
    assert after[start..end] == after[start..mid] + after[mid..end];
  }

  /** Copying k frames of the unread input. */
  lemma {:induction false} ReplayRest(n: nat, input: seq<real>, edits: seq<Edit>, rest: seq<real>, k: nat, size: nat)
    requires n > 0 && k > 0 && size == k * n && size <= |rest|
    requires Replay(n, input, edits).used <= |input| && rest == input[Replay(n, input, edits).used..]
    ensures var s := Replay(n, input, edits);
            var t := Replay(n, input, edits + Copies(k));
            && n <= size
            && t.output == s.output + rest[..size] && t.last == rest[..size][size - n..] && t.used == s.used + size
            && rest[size..] == input[t.used..]
  {
    hide Replay;
    var s := Replay(n, input, edits);
    ReplayCopies(n, input, edits, k, size);
    assert rest[..size] == input[s.used .. s.used + size];
    assert rest[..size][size - n..] == input[s.used + size - n .. s.used + size];
  }

  lemma {:induction false} OneChange(edits: seq<Edit>, e: Edit)
    ensures Changes((edits + [e])[|edits|..]) <= 1
  {
    assert (edits + [e])[|edits|..] == [] + [e];
    ChangesNext([], e);
  }

  lemma {:induction false} CopiesLater(edits: seq<Edit>, mark: nat, k: nat)
    requires mark <= |edits|
    ensures Changes((edits + Copies(k))[mark..]) == Changes(edits[mark..])
  {
    assert (edits + Copies(k))[mark..] == edits[mark..] + Copies(k);
    ChangesCopies(edits[mark..], k);
  }

  lemma {:induction false} NoChanges(edits: seq<Edit>)
    ensures Changes(edits[|edits|..]) == 0
  {
  }
}
