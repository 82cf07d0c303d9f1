/**
 * What the decimation resampler may do to its input: copy it frame by frame, repeat the last
 * output frame, or drop a frame. A frame is n consecutive samples, one per channel.
 */
module DecimationSpec {
  import opened Arith

  datatype Edit = Copy | Repeat | Drop

  /** Output so far, the last n samples of it, and how much input has been used. */
  datatype Progress = Progress(output: seq<real>, last: seq<real>, used: nat)

  function Silence(n: nat): seq<real> { seq(n, i => 0.0) }

  function Perform(n: nat, input: seq<real>, s: Progress, e: Edit): Progress {
    match e
    case Repeat => Progress(s.output + s.last, s.last, s.used)
    case Drop => s.(used := s.used + n)
    case Copy =>
      if s.used + n <= |input| then
        var frame := input[s.used .. s.used + n];
        Progress(s.output + frame, frame, s.used + n)
      else s.(used := s.used + n)  // not enough input
  }

  /** The output is silent at first: that is what the very first repeat would repeat. */
  function Replay(n: nat, input: seq<real>, edits: seq<Edit>): Progress {
    if edits == [] then Progress([], Silence(n), 0)
    else Perform(n, input, Replay(n, input, edits[..|edits| - 1]), edits[|edits| - 1])
  }

  function Copies(k: nat): (edits: seq<Edit>)
    ensures |edits| == k
  {
    seq(k, i => Copy)
  }

  lemma {:induction false} ReplayNext(n: nat, input: seq<real>, edits: seq<Edit>, e: Edit)
    ensures Replay(n, input, edits + [e]) == Perform(n, input, Replay(n, input, edits), e)
  {
    assert (edits + [e])[..|edits|] == edits;
  }

  lemma {:induction false} CopyTwice(a: seq<real>, input: seq<real>, i: nat, j: nat, k: nat)
    requires i <= j <= k <= |input|
    ensures a + input[i..j] + input[j..k] == a + input[i..k]
  {
    assert input[i..j] + input[j..k] == input[i..k];
  }

  /** Copying len samples at once is copying k frames. */
  lemma {:induction false} ReplayCopies(n: nat, input: seq<real>, edits: seq<Edit>, k: nat, len: nat)
    requires n > 0 && k > 0 && len == k * n
    requires Replay(n, input, edits).used + len <= |input|
    ensures var s := Replay(n, input, edits);
            && n <= len
            && Replay(n, input, edits + Copies(k))
               == Progress(s.output + input[s.used .. s.used + len], input[s.used + len - n .. s.used + len], s.used + len)
    decreases k
  {
    hide Replay;
    MulMono(1, k, n);
    var s := Replay(n, input, edits);
    var before := edits + Copies(k - 1);
    assert edits + Copies(k) == before + [Copy];
    ReplayNext(n, input, before, Copy);
    if k == 1 {
      assert before == edits;
    } else {
      assert len - n == (k - 1) * n;
      ReplayCopies(n, input, edits, k - 1, len - n);
      CopyTwice(s.output, input, s.used, s.used + len - n, s.used + len);
    }
  }

  /** More input does not change what has been done with the input used so far. */
  lemma {:induction false} ReplayExtends(n: nat, input: seq<real>, more: seq<real>, edits: seq<Edit>)
    requires Replay(n, input, edits).used <= |input|
    ensures Replay(n, input + more, edits) == Replay(n, input, edits)
  {
    if edits != [] {
      var before := edits[..|edits| - 1];
      var s := Replay(n, input, before);
      ReplayExtends(n, input, more, before);
      if s.used + n <= |input| {
        assert (input + more)[s.used .. s.used + n] == input[s.used .. s.used + n];
      }
    }
  }
}
