/** Reads of any size: how they compose, and how many frames a stream holds. */
module ImaReads {
  import opened Bytes
  import opened ImaSpec

  /** All frames are out and the block has bytes left: a read that wants more decodes them nevertheless. */
  predicate Overruns(w: Wav, s: State) { s.cursor == w.total && s.pending == [] && s.left != 0 }

  /** What the decoder does when asked for n frames. */
  function Read(w: Wav, s: State, n: nat): Frames
    requires Valid(w, s)
  {
    PullsKeep(w, s, n);
    var r := Pulls(w, s, n);
    if 0 < |r.frames| < n && Overruns(w, r.state) then r.(state := LoadGroup(w, r.state).state) else r
  }

  lemma {:induction false} PullsKeep(w: Wav, s: State, n: nat)
    requires Valid(w, s)
    ensures var r := Pulls(w, s, n);
            && Valid(w, r.state) && |r.frames| <= n
            && r.state.cursor == s.cursor + |r.frames|
            && forall i :: 0 <= i < |r.frames| ==> FrameOk(w, r.frames[i])
    decreases n
  {
    hide Pull, Valid, FrameOk;
    if n > 0 {
      PullKeeps(w, s);
      if Pull(w, s).Next? {
        PullsKeep(w, Pull(w, s).state, n - 1);
      }
    }
  }

  /** Samples stay 16-bit, predictors and step indices stay in their tables, and the cursor counts the frames. */
  lemma {:induction false} ReadKeeps(w: Wav, s: State, n: nat)
    requires Valid(w, s)
    ensures var r := Read(w, s, n);
            && Valid(w, r.state) && |r.frames| <= n
            && r.state.cursor == s.cursor + |r.frames| <= w.total
            && forall i :: 0 <= i < |r.frames| ==> FrameOk(w, r.frames[i])
  {
    hide Pulls, LoadGroup, FrameOk;
    PullsKeep(w, s, n);
    var r := Pulls(w, s, n);
    assert r.state.cursor <= w.total;
    if Overruns(w, r.state) {
      GroupKeeps(w, r.state);
    }
  }

  lemma {:induction false} PullsAdd(w: Wav, s: State, n: nat, m: nat)
    requires Valid(w, s)
    ensures var first := Pulls(w, s, n);
            && Valid(w, first.state)
            && Pulls(w, s, n + m) == if |first.frames| < n then first else
                 var second := Pulls(w, first.state, m);
                 Frames(first.frames + second.frames, second.state)
    decreases n
  {
    hide Pull, Valid;
    if n == 0 {
      assert [] + Pulls(w, s, m).frames == Pulls(w, s, m).frames;
    } else {
      PullKeeps(w, s);
      if Pull(w, s).Next? {
        var t := Pull(w, s).state;
        PullsAdd(w, t, n - 1, m);
        var f, g := Pull(w, s).frame, Pulls(w, t, n - 1);
        PullsKeep(w, t, n - 1);
        if |g.frames| == n - 1 {
          var second := Pulls(w, g.state, m);
          assert [f] + (g.frames + second.frames) == [f] + g.frames + second.frames;
        }
      }
    }
  }

  /** At the end nothing more comes. */
  lemma {:induction false} NothingAtTotal(w: Wav, s: State, m: nat)
    requires Valid(w, s) && s.cursor == w.total
    ensures Pulls(w, s, m) == Frames([], s)
  {
  }

  lemma {:induction false} NothingWithoutData(w: Wav, s: State, m: nat)
    requires Valid(w, s) && s.pending == [] && s.pos == |w.data|
    ensures Pulls(w, s, m) == Frames([], s)
  {
    if s.left == 0 {
      assert s.(pos := |w.data|) == s;
    } else {
      assert LoadWord(w, s, 0) == (s, []);
    }
  }

  lemma {:induction false} SplitByOutcome(w: Wav, s: State, n: nat, m: nat)
    requires Valid(w, s)
    ensures var first := Read(w, s, n);
            && Valid(w, first.state)
            && (Read(w, s, n + m).frames == first.frames + Read(w, first.state, m).frames <==>
                |first.frames| == n || Read(w, first.state, m).frames == [])
  {
    hide Pulls, Valid, LoadGroup;
    PullsAdd(w, s, n, m);
    ReadKeeps(w, s, n);
    PullsKeep(w, s, n);
    var first := Read(w, s, n);
    if |first.frames| < n {
      var more := Read(w, first.state, m).frames;
      assert |first.frames + more| == |first.frames| + |more|;
      assert first.frames + [] == first.frames;
    } else {
      assert first == Pulls(w, s, n);
    }
  }

  /** A read that was cut short by the end of the data or of the stream is the last. */
  lemma {:induction false} ShortReadIsLast(w: Wav, s: State, n: nat, m: nat)
    requires Valid(w, s) && |Read(w, s, n).frames| < n
    requires var t := Read(w, s, n).state; t.cursor == w.total || (t.pos == |w.data| && t.pending == [])
    ensures Valid(w, Read(w, s, n).state) && Read(w, Read(w, s, n).state, m).frames == []
  {
    hide Pulls, LoadGroup;
    ReadKeeps(w, s, n);
    var t := Read(w, s, n).state;
    if t.cursor == w.total {
      NothingAtTotal(w, t, m);
    } else {
      NothingWithoutData(w, t, m);
    }
  }

  lemma {:induction false} OverrunMoves(w: Wav, s: State)
    requires Valid(w, s) && Overruns(w, s)
    ensures LoadGroup(w, s).state == s <==> s.pos == |w.data|
  {
    hide Nudges;
    if s.pos == |w.data| {
      assert LoadWord(w, s, 0) == (s, []);
    } else {
      var (t, left) := LoadWord(w, s, 0);
      WordKeeps(w, s, 0);
      assert t.pos > s.pos;
      if left != [] && w.channels == 2 {
        WordKeeps(w, t, 1);
        assert LoadWord(w, t, 1).0.pos >= t.pos;
      }
    }
  }

  lemma {:induction false} FullReadState(w: Wav, s: State, n: nat, m: nat)
    requires Valid(w, s) && 0 < n && 0 < m && |Pulls(w, s, n).frames| == n
    ensures var t := Pulls(w, s, n).state;
            && Valid(w, t) && Read(w, s, n).state == t
            && (Read(w, s, n + m).state == Read(w, t, m).state <==> !(Overruns(w, t) && t.pos < |w.data|))
  {
    hide Pulls, Valid, LoadGroup;
    PullsAdd(w, s, n, m);
    PullsKeep(w, s, n);
    var t := Pulls(w, s, n).state;
    PullsKeep(w, t, m);
    var second := Pulls(w, t, m);
    if t.cursor == w.total {
      NothingAtTotal(w, t, m);
      if Overruns(w, t) {
        AtMostAll(w, t);
        OverrunMoves(w, t);
      }
    } else if second.frames == [] {
      assert second.state.cursor != w.total;
    }
  }

  lemma {:induction false} AtMostAll(w: Wav, s: State)
    requires Valid(w, s)
    ensures s.pos <= |w.data|
  {
  }

  /** A block with a bad step index gives no frame: the read ends, and the next one starts behind the block. */
  lemma {:induction false} BadBlockIsSkipped(w: Wav, s: State, n: nat)
    requires Valid(w, s) && s.pending == [] && s.left == 0 && s.cursor < w.total && 0 < n
    requires s.pos + w.channels * WORD <= |w.data| && !HeaderOk(w, s.pos)
    ensures Read(w, s, n) ==
            Frames([], s.(pos := Seek(w, s.pos + w.channels * WORD, Minus(w.blockAlign, w.channels * WORD))))
  {
    hide HeaderOk, LoadGroup, Seek;
    assert Pull(w, s).Stop?;
  }

  lemma {:induction false} GoodBlockGives(w: Wav, s: State)
    requires Valid(w, s) && s.pending == [] && s.left == 0 && s.cursor < w.total
    requires s.pos + w.channels * WORD <= |w.data| && HeaderOk(w, s.pos) && w.channels == 1
    ensures Read(w, s, 1).frames == [[HeaderVoice(w, s.pos, 0).predictor]]
  {
    hide HeaderOk, LoadGroup, HeaderVoice;
    RefillKeeps(w, s);
    var r := LoadHeader(w, s);
    assert r.state.pending[0] == [HeaderVoice(w, s.pos, 0).predictor];
    PullKeeps(w, s);
    var t := Pull(w, s).state;
    assert Pulls(w, t, 0) == Frames([], t);
    assert Pulls(w, s, 1).frames == [Pull(w, s).frame] + [];
  }

  /** So a read that stopped at a bad block can be followed by one that gives frames a longer read does not. */
  lemma {:induction false} BadBlockBreaksSplit()
    ensures var w := Wav(1, 4, 2, [0, 0, 89, 0, 5, 0, 0, 0]);
            var s := State(0, 0, 0, [Voice(0, 0)], []);
            && Valid(w, s) && Valid(w, Read(w, s, 1).state)
            && Read(w, s, 2).frames == [] && Read(w, s, 1).frames == []
            && Read(w, Read(w, s, 1).state, 1).frames == [[5]]
  {
    hide Read, LoadHeader, LoadGroup;
    var w := Wav(1, 4, 2, [0, 0, 89, 0, 5, 0, 0, 0]);
    var s := State(0, 0, 0, [Voice(0, 0)], []);
    var t := s.(pos := 4);
    assert HeaderVoice(w, 0, 0).index == 89;
    BadBlockIsSkipped(w, s, 1);
    BadBlockIsSkipped(w, s, 2);
    assert HeaderVoice(w, 4, 0) == Voice(5, 0);
    GoodBlockGives(w, t);
  }

  // ---------------------------------------------------------------- the beginning of a block

  /** Pending frames come out in order, before anything is loaded. */
  lemma {:induction false} PullsPending(w: Wav, s: State, n: nat)
    requires Valid(w, s) && n <= |s.pending| && s.cursor + n <= w.total
    ensures Pulls(w, s, n) == Frames(s.pending[..n], s.(pending := s.pending[n..], cursor := s.cursor + n))
    decreases n
  {
    hide LoadHeader, LoadGroup;
    if n > 0 {
      PullKeeps(w, s);
      PullsPending(w, Take(s), n - 1);
      assert [s.pending[0]] + s.pending[1..][..n - 1] == s.pending[..n];
      assert s.pending[1..][n - 1..] == s.pending[n..];
    }
  }

  /** One channel: the sample of the header, then one sample for every 4-bit difference of the first word. */
  lemma {:induction false} FirstNine(w: Wav, s: State)
    requires Valid(w, s) && s.pending == [] && s.left == 0 && s.cursor + 9 <= w.total
    requires w.channels == 1 && w.blockAlign > WORD && s.pos + 2 * WORD <= |w.data| && HeaderOk(w, s.pos)
    ensures var v := HeaderVoice(w, s.pos, 0);
            && VoiceOk(v)
            && var run := Nudges(v, w.data[s.pos + WORD..s.pos + 2 * WORD]);
               && |run| == 8
               && Read(w, s, 9).frames == [[v.predictor]] + seq(8, i requires 0 <= i < 8 => [run[i].predictor])
  {
    hide Nudges, Read16, Signed16;
    HeaderKeeps(w, s);
    var v := HeaderVoice(w, s.pos, 0);
    HeaderSample(w.data[s.pos..]);
    var a := LoadHeader(w, s).state;
    assert a.pending[0] == [v.predictor];
    assert a.voices == [v] && a.pending == [[v.predictor]] && a.pos == s.pos + WORD && a.left > 0;
    PullKeeps(w, s);
    var t := Take(a);
    assert Pull(w, s) == Next([v.predictor], t);
    GroupKeeps(w, t);
    var b := LoadGroup(w, t).state;
    var run := Nudges(v, w.data[s.pos + WORD..s.pos + 2 * WORD]);
    assert b.pending == seq(8, i requires 0 <= i < 8 => [run[i].predictor]);
    LoadedPulls(w, t, 8);
    PullsPending(w, b, 8);
    assert b.pending[..8] == b.pending;
    assert Pulls(w, s, 9).frames == [[v.predictor]] + b.pending;
  }

  /** Loading first makes no difference to what is pulled. */
  lemma {:induction false} LoadedPulls(w: Wav, s: State, n: nat)
    requires Valid(w, s) && s.pending == [] && s.left != 0 && s.cursor < w.total && n > 0
    requires LoadGroup(w, s).ok
    ensures Valid(w, LoadGroup(w, s).state) && Pulls(w, s, n) == Pulls(w, LoadGroup(w, s).state, n)
  {
    hide LoadGroup;
    GroupKeeps(w, s);
    PullKeeps(w, s);
    PullKeeps(w, LoadGroup(w, s).state);
  }

  /** A step of 7, a large difference and a small one: 11, and from there an eighth of the step eight places on. */
  lemma {:induction false} FirstSamples()
    ensures var w := Wav(1, 8, 9, [0, 0, 0, 0, 7, 0, 0, 0]);
            var s := State(0, 0, 0, [Voice(0, 0)], []);
            Valid(w, s) && |Read(w, s, 9).frames| == 9 && Read(w, s, 9).frames[..3] == [[0], [11], [13]]
  {
    hide Read;
    var w := Wav(1, 8, 9, [0, 0, 0, 0, 7, 0, 0, 0]);
    var s := State(0, 0, 0, [Voice(0, 0)], []);
    assert w.data[..4] == [0, 0, 0, 0] && w.data[4..8] == [7, 0, 0, 0];
    StepsOnAndBack(w, s);
  }

  lemma {:induction false} StepsOnAndBack(w: Wav, s: State)
    requires Valid(w, s) && s.pos == 0 && s.pending == [] && s.left == 0 && s.cursor + 9 <= w.total
    requires w.channels == 1 && w.blockAlign > WORD && |w.data| >= 2 * WORD
    requires w.data[..4] == [0, 0, 0, 0] && w.data[4..8] == [7, 0, 0, 0]
    ensures |Read(w, s, 9).frames| == 9 && Read(w, s, 9).frames[..3] == [[0], [11], [13]]
  {
    hide Read, Nudges, Valid, HeaderVoice, HeaderOk, VoiceOk;
    ZeroHeader(w);
    FirstNine(w, s);
    FirstNudges(w.data[4..8]);
  }

  lemma {:induction false} ZeroHeader(w: Wav)
    requires w.channels == 1 && |w.data| >= WORD && w.data[..4] == [0, 0, 0, 0]
    ensures HeaderVoice(w, 0, 0) == Voice(0, 0) && HeaderOk(w, 0)
  {
    assert w.data[0] == w.data[..4][0] && w.data[1] == w.data[..4][1] && w.data[2] == w.data[..4][2];
  }

  lemma {:induction false} FirstNudges(word: seq<Byte>)
    requires word == [7, 0, 0, 0]
    ensures var run := Nudges(Voice(0, 0), word); run[0].predictor == 11 && run[1].predictor == 13
  {
    FirstNudge();
    hide Nudge;
  }

  lemma {:induction false} FirstNudge()
    ensures Nudge(Voice(0, 0), 7) == Voice(11, 8) && Nudge(Voice(11, 8), 0) == Voice(13, 7)
  {
    assert StepAt(0) == 7 && StepAt(8) == 16;
  }
}
