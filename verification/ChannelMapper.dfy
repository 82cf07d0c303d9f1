/** The three mapping loops over interleaved buffers, with pointers advancing through them. */
module ChannelMapping {
  import opened MixMatrix
  import opened MixIndex
  import opened ChannelMatrix
  import opened TrackMap

  lemma {:induction false} FrameBounds(n: nat, size: nat)
    requires n > 0
    ensures n * size == size + (n - 1) * size && (n - 1) * size >= 0
  {
  }

  // ---------------------------------------------------------------- surround to surround

  /** All frames of a buffer, one by one. */
  function MapFrames(m: Matrix, samples: seq<real>, ins: nat, outs: nat, n: nat): seq<real>
    requires ins <= N && outs <= N && n * ins <= |samples|
    decreases n
  {
    if n == 0 then []
    else
      FrameBounds(n, ins);
      MapFrame(m, samples[..ins], outs) + MapFrames(m, samples[ins..], ins, outs, n - 1)
  }

  /** One frame at the current pointers. */
  method MapSurroundFrame(coeff: array2<real>, input: array<real>, inPos: nat, ins: nat,
                          out: array<real>, outPos: nat, outs: nat, ghost m: Matrix)
    requires Square(coeff) && Holds(coeff, m) && input != out
    requires ins <= N && outs <= N && inPos + ins <= input.Length && outPos + outs <= out.Length
    modifies out
    ensures out[outPos .. outPos + outs] == MapFrame(m, input[inPos .. inPos + ins], outs)
    ensures out[..outPos] == old(out[..outPos])
  {
    ghost var frame := input[inPos .. inPos + ins];
    for o := 0 to outs
      invariant forall q :: 0 <= q < o ==> out[outPos + q] == Clamp(Dot(m[q], frame, ins))
      invariant out[..outPos] == old(out[..outPos])
    {
      assert HoldsRow(coeff, o, m[o]);
      var s := 0.0;
      for i := 0 to ins
        invariant s == Dot(m[o], frame, i)
      {
        s := s + input[inPos + i] * coeff[o, i];
      }
      s := if s < SAMPLE_MAX then s else SAMPLE_MAX;
      s := if s > SAMPLE_MIN then s else SAMPLE_MIN;
      out[outPos + o] := s;
    }
  }

  method MapSurroundSurround(coeff: array2<real>, input: array<real>, ins: nat, out: array<real>, outs: nat, n: nat, ghost m: Matrix)
    requires Square(coeff) && Holds(coeff, m) && input != out
    requires ins <= N && outs <= N && n * ins <= input.Length && n * outs <= out.Length
    modifies out
    ensures out[..n * outs] == MapFrames(m, input[..], ins, outs, n)
  {
    hide MapFrame, Holds;
    var inPos, outPos: nat := 0, 0;
    var left: nat := n;
    ghost var inRest, outRest := n * ins, n * outs;
    assert input[0..] == input[..];
    while left > 0
      invariant inRest == left * ins && outRest == left * outs
      invariant inPos + inRest <= input.Length && outPos + outRest == n * outs <= out.Length
      invariant out[..outPos] + MapFrames(m, input[inPos..], ins, outs, left) == MapFrames(m, input[..], ins, outs, n)
      invariant Holds(coeff, m)
    {
      FrameBounds(left, ins);
      FrameBounds(left, outs);
      ghost var done := out[..outPos];
      MapSurroundFrame(coeff, input, inPos, ins, out, outPos, outs, m);
      assert input[inPos..][..ins] == input[inPos .. inPos + ins];
      NextFrame(done, out[outPos .. outPos + outs], m, input[inPos..], ins, outs, left);
      assert out[..outPos + outs] == done + out[outPos .. outPos + outs];
      assert input[inPos..][ins..] == input[inPos + ins..];
      inPos, outPos, left := inPos + ins, outPos + outs, left - 1;
      inRest, outRest := inRest - ins, outRest - outs;
    }
  }

  lemma {:induction false} NextFrame(done: seq<real>, frame: seq<real>, m: Matrix, rest: seq<real>, ins: nat, outs: nat, n: nat)
    requires ins <= N && outs <= N && n > 0 && n * ins <= |rest| && ins <= |rest|
    requires frame == MapFrame(m, rest[..ins], outs)
    ensures (n - 1) * ins <= |rest[ins..]|
    ensures done + MapFrames(m, rest, ins, outs, n) == done + frame + MapFrames(m, rest[ins..], ins, outs, n - 1)
  {
    FrameBounds(n, ins);
  }

  // ---------------------------------------------------------------- multitrack to multitrack

  /** The tracks of both sets lie between first and last. */
  ghost predicate Spans(a: set<nat>, b: set<nat>, first: nat, last: nat) {
    first <= last && forall c :: c in a || c in b ==> first <= c <= last
  }

  /** One frame: a single pass over the track numbers, both pointers advancing. */
  method MapTracksFrame(a: set<nat>, b: set<nat>, first: nat, last: nat,
                        input: array<real>, inPos: nat, out: array<real>, outPos: nat) returns (inPos': nat, outPos': nat)
    requires Spans(a, b, first, last) && input != out
    requires inPos + |a| <= input.Length && outPos + |b| <= out.Length
    modifies out
    ensures inPos' == inPos + |a| && outPos' == outPos + |b|
    ensures Rank(a, last + 1) == |a|
    ensures out[outPos..outPos'] == Output(a, b, input[inPos..inPos'], last + 1)
    ensures out[..outPos] == old(out[..outPos])
  {
    RankIsSize(a, last + 1);
    RankIsSize(b, last + 1);
    ghost var frame := input[inPos .. inPos + |a|];
    RankMonotone(a, first, last + 1);
    NothingOutside(a, b, frame, 0, first);
    inPos', outPos' := inPos, outPos;
    var ch := first;
    while ch <= last
      invariant first <= ch <= last + 1
      invariant Rank(a, ch) <= |frame| && Rank(b, ch) <= |b|
      invariant inPos' == inPos + Rank(a, ch) && outPos' == outPos + Rank(b, ch)
      invariant out[outPos..outPos'] == Output(a, b, frame, ch)
      invariant out[..outPos] == old(out[..outPos])
    {
      RankMonotone(a, ch + 1, last + 1);
      RankMonotone(b, ch + 1, last + 1);
      ghost var head := out[outPos..outPos'];
      ghost var before := out[..outPos];
      if ch in a {
        if ch in b {
          out[outPos'] := input[inPos'];
          outPos' := outPos' + 1;
          assert out[outPos..outPos'] == head + [frame[Rank(a, ch)]];
        }
        inPos' := inPos' + 1;
      } else {
        if ch in b {
          out[outPos'] := 0.0;
          outPos' := outPos' + 1;
          assert out[outPos..outPos'] == head + [0.0];
        }
      }
      assert out[..outPos] == before;
      ch := ch + 1;
    }
    assert frame == input[inPos..inPos'];
  }

  /** All frames of a buffer, one by one. */
  function TrackFrames(a: set<nat>, b: set<nat>, samples: seq<real>, last: nat, size: nat, n: nat): seq<real>
    requires Rank(a, last + 1) == size && n * size <= |samples|
    decreases n
  {
    if n == 0 then []
    else
      FrameBounds(n, size);
      Output(a, b, samples[..size], last + 1) + TrackFrames(a, b, samples[size..], last, size, n - 1)
  }

  /** Both pointers end exactly behind the frames they went through. */
  method MapMultitrackMultitrack(a: set<nat>, b: set<nat>, first: nat, last: nat, input: array<real>, out: array<real>, n: nat)
    returns (inPos: nat, outPos: nat)
    requires Spans(a, b, first, last) && input != out
    requires n * |a| <= input.Length && n * |b| <= out.Length
    modifies out
    ensures inPos == n * |a| && outPos == n * |b|
    ensures Rank(a, last + 1) == |a|
    ensures out[..outPos] == TrackFrames(a, b, input[..], last, |a|, n)
  {
    hide Output;
    RankIsSize(a, last + 1);
    inPos, outPos := 0, 0;
    var left: nat := n;
    ghost var inRest, outRest := n * |a|, n * |b|;
    assert input[0..] == input[..];
    while left > 0
      invariant inRest == left * |a| && outRest == left * |b|
      invariant inPos + inRest == n * |a| <= input.Length && outPos + outRest == n * |b| <= out.Length
      invariant out[..outPos] + TrackFrames(a, b, input[inPos..], last, |a|, left)
             == TrackFrames(a, b, input[..], last, |a|, n)
    {
      FrameBounds(left, |a|);
      FrameBounds(left, |b|);
      ghost var done, i0, o0 := out[..outPos], inPos, outPos;
      inPos, outPos := MapTracksFrame(a, b, first, last, input, inPos, out, outPos);
      assert input[i0..][..|a|] == input[i0..inPos];
      NextTracks(done, out[o0..outPos], a, b, input[i0..], last, |a|, left);
      assert out[..outPos] == done + out[o0..outPos];
      assert input[i0..][|a|..] == input[inPos..];
      left := left - 1;
      inRest, outRest := inRest - |a|, outRest - |b|;
    }
  }

  lemma {:induction false} NextTracks(
    done: seq<real>, frame: seq<real>, a: set<nat>, b: set<nat>, rest: seq<real>, last: nat, size: nat, n: nat)
    requires Rank(a, last + 1) == size && n > 0 && n * size <= |rest| && size <= |rest|
    requires frame == Output(a, b, rest[..size], last + 1)
    ensures (n - 1) * size <= |rest[size..]|
    ensures done + TrackFrames(a, b, rest, last, size, n)
         == done + frame + TrackFrames(a, b, rest[size..], last, size, n - 1)
  {
    FrameBounds(n, size);
  }

  // ---------------------------------------------------------------- surround and multitrack mixed

  /** First channels to first channels; missing ones are silent. */
  function Truncate(frame: seq<real>, outs: nat): seq<real> {
    seq(outs, o requires 0 <= o < outs => if o < |frame| then frame[o] else 0.0)
  }

  function TruncateFrames(samples: seq<real>, ins: nat, outs: nat, n: nat): seq<real>
    requires n * ins <= |samples|
    decreases n
  {
    if n == 0 then []
    else
      FrameBounds(n, ins);
      Truncate(samples[..ins], outs) + TruncateFrames(samples[ins..], ins, outs, n - 1)
  }

  method MapMultitrackSurround(input: array<real>, ins: nat, out: array<real>, outs: nat, n: nat)
    returns (inPos: nat, outPos: nat)
    requires input != out
    requires n * ins <= input.Length && n * outs <= out.Length
    modifies out
    ensures inPos == n * ins && outPos == n * outs
    ensures out[..outPos] == TruncateFrames(input[..], ins, outs, n)
  {
    inPos, outPos := 0, 0;
    var left: nat := n;
    ghost var inRest, outRest := n * ins, n * outs;
    assert input[0..] == input[..];
    while left > 0
      invariant inRest == left * ins && outRest == left * outs
      invariant inPos + inRest == n * ins <= input.Length && outPos + outRest == n * outs <= out.Length
      invariant out[..outPos] + TruncateFrames(input[inPos..], ins, outs, left) == TruncateFrames(input[..], ins, outs, n)
    {
      FrameBounds(left, ins);
      FrameBounds(left, outs);
      ghost var done, i0, o0 := out[..outPos], inPos, outPos;
      inPos, outPos := TruncateFrame(input, inPos, ins, out, outPos, outs);
      assert input[i0..][..ins] == input[i0..inPos];
      NextTruncated(done, out[o0..outPos], input[i0..], ins, outs, left);
      assert out[..outPos] == done + out[o0..outPos];
      assert input[i0..][ins..] == input[inPos..];
      left := left - 1;
      inRest, outRest := inRest - ins, outRest - outs;
    }
  }

  method TruncateFrame(input: array<real>, inPos: nat, ins: nat, out: array<real>, outPos: nat, outs: nat)
    returns (inPos': nat, outPos': nat)
    requires input != out && inPos + ins <= input.Length && outPos + outs <= out.Length
    modifies out
    ensures inPos' == inPos + ins && outPos' == outPos + outs
    ensures out[outPos..outPos'] == Truncate(input[inPos..inPos'], outs)
    ensures out[..outPos] == old(out[..outPos])
  {
    ghost var frame := input[inPos .. inPos + ins];
    inPos', outPos' := inPos, outPos;
    var outCh, inCh := 0, 0;
    while outCh < outs
      invariant 0 <= outCh <= outs && inCh == if outCh < ins then outCh else ins
      invariant inPos' == inPos + inCh && outPos' == outPos + outCh
      invariant out[outPos..outPos'] == Truncate(frame, outCh)
      invariant out[..outPos] == old(out[..outPos])
    {
      ghost var made, before := out[outPos..outPos'], out[..outPos];
      if inCh < ins {
        out[outPos'] := input[inPos'];
        inPos' := inPos' + 1;
        inCh := inCh + 1;
      } else {
        out[outPos'] := 0.0;
      }
      outPos' := outPos' + 1;
      outCh := outCh + 1;
      assert out[outPos..outPos'] == made + [if outCh - 1 < ins then frame[outCh - 1] else 0.0];
      assert out[..outPos] == before;
    }
    if inCh < ins {
      inPos' := inPos' + (ins - inCh);
    }
    assert frame == input[inPos..inPos'];
  }

  lemma {:induction false} NextTruncated(done: seq<real>, frame: seq<real>, rest: seq<real>, ins: nat, outs: nat, n: nat)
    requires n > 0 && n * ins <= |rest| && ins <= |rest|
    requires frame == Truncate(rest[..ins], outs)
    ensures (n - 1) * ins <= |rest[ins..]|
    ensures done + TruncateFrames(rest, ins, outs, n) == done + frame + TruncateFrames(rest[ins..], ins, outs, n - 1)
  {
    FrameBounds(n, ins);
  }
}
