/**
 * IMA ADPCM decoding as a machine that yields one frame at a time. A block is a header with the
 * first sample of every channel, then groups of one 4-byte word (eight 4-bit differences) per channel.
 */
module ImaSpec {
  import opened Bytes

  const CACHE_SIZE := 16
  const MAX_INDEX := 88
  const WORD := 4

  /** The step sizes, ten to a row. */
  const STEPS: seq<seq<int>> :=
    [[7, 8, 9, 10, 11, 12, 13, 14, 16, 17],
     [19, 21, 23, 25, 28, 31, 34, 37, 41, 45],
     [50, 55, 60, 66, 73, 80, 88, 97, 107, 118],
     [130, 143, 157, 173, 190, 209, 230, 253, 279, 307],
     [337, 371, 408, 449, 494, 544, 598, 658, 724, 796],
     [876, 963, 1060, 1166, 1282, 1411, 1552, 1707, 1878, 2066],
     [2272, 2499, 2749, 3024, 3327, 3660, 4026, 4428, 4871, 5358],
     [5894, 6484, 7132, 7845, 8630, 9493, 10442, 11487, 12635, 13899],
     [15289, 16818, 18500, 20350, 22385, 24623, 27086, 29794, 32767]]

  function StepAt(index: int): int
    requires 0 <= index <= MAX_INDEX
  {
    STEPS[index / 10][index % 10]
  }

  function IndexChange(nibble: int): int
    requires 0 <= nibble < 16
  {
    [-1, -1, -1, -1, 2, 4, 6, 8][nibble % 8]
  }

  function Clamp(x: int, lo: int, hi: int): int {
    if x < lo then lo else if x > hi then hi else x
  }

  predicate IsSample(x: int) { -32768 <= x <= 32767 }

  /** Decoding state of one channel. */
  datatype Voice = Voice(predictor: int, index: int)

  predicate VoiceOk(v: Voice) { IsSample(v.predictor) && 0 <= v.index <= MAX_INDEX }

  function Difference(step: int, nibble: int): int
    requires 0 <= nibble < 16
  {
    var d := step / 8
           + (if nibble % 2 == 1 then step / 4 else 0)
           + (if nibble / 2 % 2 == 1 then step / 2 else 0)
           + (if nibble / 4 % 2 == 1 then step else 0);
    if nibble >= 8 then -d else d
  }

  /**
   * The top bit is a sign; the others, as a number q, stand for (2q + 1) eighths of the step, of
   * which rounding every part down loses at most 17/8.
   */
  lemma {:induction false} DifferenceMeans(step: nat, nibble: int)
    requires 0 <= nibble < 16
    ensures var q, size := nibble % 8, if nibble >= 8 then -Difference(step, nibble) else Difference(step, nibble);
            0 <= size && 8 * size <= (2 * q + 1) * step <= 8 * size + 17
  {
    var q := nibble % 8;
    assert (2 * q + 1) * step == step + 2 * (if q % 2 == 1 then step else 0)
                                + 4 * (if q / 2 % 2 == 1 then step else 0) + 8 * (if q / 4 % 2 == 1 then step else 0) by {
      OddEighths(q, step);
    }
  }

  lemma {:induction false} OddEighths(q: int, step: nat)
    requires 0 <= q < 8
    ensures (2 * q + 1) * step == step + 2 * (if q % 2 == 1 then step else 0)
                                + 4 * (if q / 2 % 2 == 1 then step else 0) + 8 * (if q / 4 % 2 == 1 then step else 0)
  {
    if q == 0 {
    } else if q == 1 {
    } else if q == 2 {
    } else if q == 3 {
    } else if q == 4 {
    } else if q == 5 {
    } else if q == 6 {
    } else {
      assert q == 7;
    }
  }

  function Nudge(v: Voice, nibble: int): (r: Voice)
    requires VoiceOk(v) && 0 <= nibble < 16
    ensures VoiceOk(r)
  {
    Voice(Clamp(v.predictor + Difference(StepAt(v.index), nibble), -32768, 32767),
          Clamp(v.index + IndexChange(nibble), 0, MAX_INDEX))
  }

  /**
   * What a 4-bit difference does to a voice: the predictor moves by odd eighths of the step, and the
   * step gets one place smaller for small differences and up to eight places larger for large ones.
   */
  lemma {:induction false} NudgeMeans(v: Voice, nibble: int)
    requires VoiceOk(v) && 0 <= nibble < 16
    ensures var q, r, step := nibble % 8, Nudge(v, nibble), StepAt(v.index);
            && r.index == Clamp(if q < 4 then v.index - 1 else v.index + 2 * (q - 3), 0, MAX_INDEX)
            && var moved := if nibble < 8 then r.predictor - v.predictor else v.predictor - r.predictor;
               && (8 * moved <= (2 * q + 1) * step <= 8 * moved + 17
                   || (moved >= 0 && 8 * moved <= (2 * q + 1) * step && r.predictor == if nibble < 8 then 32767 else -32768))
  {
    hide StepAt;
    StepIsPositive(v.index);
    DifferenceMeans(StepAt(v.index), nibble);
  }

  lemma {:induction false} StepIsPositive(index: int)
    requires 0 <= index <= MAX_INDEX
    ensures 7 <= StepAt(index) <= 32767
  {
  }

  /** Eleven tenths, with an error below one. */
  predicate Grows(a: int, b: int) { a < b && -8 <= 10 * b - 11 * a <= 8 }

  lemma {:induction false} RowGrows(r: nat, c: nat)
    requires r < 9 && c + 1 < |STEPS[r]|
    ensures Grows(STEPS[r][c], STEPS[r][c + 1]) || (r == 8 && c == 7)
  {
    if r == 0 {
    } else if r == 1 {
    } else if r == 2 {
    } else if r == 3 {
    } else if r == 4 {
    } else if r == 5 {
    } else if r == 6 {
    } else if r == 7 {
    } else {
      assert r == 8;
    }
  }

  lemma {:induction false} RowsJoin(r: nat)
    requires r < 8
    ensures |STEPS[r]| == 10 && Grows(STEPS[r][9], STEPS[r + 1][0])
  {
  }

  lemma {:induction false} EndSteps()
    ensures StepAt(0) == 7 && StepAt(87) == 29794 && StepAt(88) == 32767
  {
  }

  /**
   * The steps grow from 7 to the largest sample, each to eleven tenths of the one before with an error
   * below one; only the last is cut to fit.
   */
  lemma {:induction false} StepsGrow(index: int)
    requires 0 <= index < MAX_INDEX
    ensures StepAt(0) == 7 && StepAt(MAX_INDEX) == 32767
    ensures StepAt(index) < StepAt(index + 1)
    ensures index < MAX_INDEX - 1 ==> Grows(StepAt(index), StepAt(index + 1))
  {
    EndSteps();
    var r, c := index / 10, index % 10;
    if c == 9 {
      RowsJoin(r);
      StepNext(r, c);
    } else if index < MAX_INDEX - 1 {
      RowLength(r);
      RowGrows(r, c);
      StepNext(r, c);
    }
  }

  lemma {:induction false} RowLength(r: nat)
    requires r < 9
    ensures |STEPS[r]| == if r == 8 then 9 else 10
  {
  }

  lemma {:induction false} StepNext(r: nat, c: nat)
    requires c < 10 && 10 * r + c < MAX_INDEX
    ensures r < 9 && c < |STEPS[r]| && StepAt(10 * r + c) == STEPS[r][c]
    ensures c < 9 ==> c + 1 < |STEPS[r]| && StepAt(10 * r + c + 1) == STEPS[r][c + 1]
    ensures c == 9 ==> r < 8 && 0 < |STEPS[r + 1]| && StepAt(10 * r + c + 1) == STEPS[r + 1][0]
  {
    RowLength(r);
    if c == 9 {
      RowLength(r + 1);
    }
    TenParts(r, c);
  }

  lemma {:induction false} TenParts(r: nat, c: nat)
    requires c < 10
    ensures (10 * r + c) / 10 == r && (10 * r + c) % 10 == c
    ensures c < 9 ==> (10 * r + c + 1) / 10 == r && (10 * r + c + 1) % 10 == c + 1
    ensures c == 9 ==> (10 * r + c + 1) / 10 == r + 1 && (10 * r + c + 1) % 10 == 0
  {
  }

  /** The voice after each 4-bit difference of a word, low half of a byte first. */
  function Nudges(v: Voice, word: seq<Byte>): (r: seq<Voice>)
    requires VoiceOk(v)
    ensures |r| == 2 * |word|
    ensures forall i :: 0 <= i < |r| ==> VoiceOk(r[i])
    decreases |word|
  {
    if word == [] then []
    else
      var low := Nudge(v, word[0] % 16);
      var high := Nudge(low, word[0] / 16);
      [low, high] + Nudges(high, word[1..])
  }

  /** What is fixed for a stream. */
  datatype Wav = Wav(channels: nat, blockAlign: nat, total: nat, data: seq<Byte>)

  /** As initialisation leaves it: one or two channels, a 16-bit block size. */
  predicate WavOk(w: Wav) { 1 <= w.channels <= 2 && 0 < w.blockAlign < 0x1_0000 }

  type Frame = seq<int>

  predicate FrameOk(w: Wav, f: Frame) { |f| == w.channels && forall i :: 0 <= i < |f| ==> IsSample(f[i]) }

  /** left: bytes remaining in the block, 32 bits; pending: decoded frames not yet handed out. */
  datatype State = State(pos: nat, cursor: nat, left: nat, voices: seq<Voice>, pending: seq<Frame>)

  ghost predicate Valid(w: Wav, s: State) {
    && WavOk(w)
    && s.pos <= |w.data| && s.cursor <= w.total && s.left < 0x1_0000_0000
    && |s.voices| == w.channels
    && (forall i :: 0 <= i < |s.voices| ==> VoiceOk(s.voices[i]))
    && |s.pending| <= 8
    && (forall i :: 0 <= i < |s.pending| ==> FrameOk(w, s.pending[i]))
  }

  function Minus(a: nat, b: nat): nat
    requires a < 0x1_0000_0000 && b < 0x1_0000_0000
  {
    (a - b) % 0x1_0000_0000
  }

  /** Position after a read of n bytes, which may be cut short by the end of the data. */
  function Forward(w: Wav, pos: nat, n: nat): nat {
    if pos + n <= |w.data| then pos + n else |w.data|
  }

  /** Relative seek by a 32-bit number taken as signed; one that leaves the data does nothing. */
  function Seek(w: Wav, pos: nat, left: nat): nat
    requires left < 0x1_0000_0000
  {
    var offset := if left < 0x8000_0000 then left else left - 0x1_0000_0000;
    if 0 <= pos + offset <= |w.data| then pos + offset else pos
  }

  function HeaderVoice(w: Wav, pos: nat, ch: nat): Voice
    requires pos + (ch + 1) * WORD <= |w.data|
  {
    Voice(Signed16(Read16(w.data[pos + ch * WORD..])), w.data[pos + ch * WORD + 2])
  }

  predicate HeaderOk(w: Wav, pos: nat)
    requires pos + w.channels * WORD <= |w.data|
  {
    forall ch :: 0 <= ch < w.channels ==> HeaderVoice(w, pos, ch).index <= MAX_INDEX
  }

  datatype Loaded = Loaded(ok: bool, state: State)

  function LoadHeader(w: Wav, s: State): Loaded
    requires WavOk(w)
  {
    var n := w.channels * WORD;
    if s.pos + n > |w.data| then Loaded(false, s.(pos := |w.data|))
    else
      var pos := s.pos + n;
      var left := Minus(w.blockAlign, n);
      if !HeaderOk(w, s.pos) then Loaded(false, s.(pos := Seek(w, pos, left), left := 0))
      else
        var voices := seq(w.channels, ch requires 0 <= ch < w.channels => HeaderVoice(w, s.pos, ch));
        var first := seq(w.channels, ch requires 0 <= ch < w.channels => HeaderVoice(w, s.pos, ch).predictor);
        Loaded(true, s.(pos := pos, left := left, voices := voices, pending := [first]))
  }

  /** One word of one channel, and the samples it stands for; none if the data ends. */
  function LoadWord(w: Wav, s: State, ch: nat): (State, seq<int>)
    requires Valid(w, s) && ch < w.channels
  {
    if s.pos + WORD > |w.data| then (s.(pos := |w.data|), [])
    else
      var run := Nudges(s.voices[ch], w.data[s.pos..s.pos + WORD]);
      (s.(pos := s.pos + WORD, left := Minus(s.left, WORD), voices := s.voices[ch := run[7]]),
       seq(8, i requires 0 <= i < 8 => run[i].predictor))
  }

  lemma {:induction false} WordKeeps(w: Wav, s: State, ch: nat)
    requires Valid(w, s) && ch < w.channels
    ensures var (t, samples) := LoadWord(w, s, ch);
            && Valid(w, t) && t.cursor == s.cursor && t.pending == s.pending
            && (samples == [] || (|samples| == 8 && forall i :: 0 <= i < 8 ==> IsSample(samples[i])))
  {
    hide Nudges;
  }

  function Mono(left: seq<int>): seq<Frame>
    requires |left| == 8
  {
    seq(8, i requires 0 <= i < 8 => [left[i]])
  }

  function Stereo(left: seq<int>, right: seq<int>): seq<Frame>
    requires |left| == |right| == 8
  {
    seq(8, i requires 0 <= i < 8 => [left[i], right[i]])
  }

  function LoadGroup(w: Wav, s: State): Loaded
    requires Valid(w, s) && s.pending == []
  {
    WordKeeps(w, s, 0);
    var (s1, left) := LoadWord(w, s, 0);
    if left == [] then Loaded(false, s1)
    else if w.channels == 1 then
      Loaded(true, s1.(pending := Mono(left)))
    else
      WordKeeps(w, s1, 1);
      var (s2, right) := LoadWord(w, s1, 1);
      if right == [] then Loaded(false, s2)
      else Loaded(true, s2.(pending := Stereo(left, right)))
  }

  datatype Pulled = Stop(state: State) | Next(frame: Frame, state: State)

  /** Whatever has to be loaded so that a frame is pending. */
  function Refill(w: Wav, s: State): Loaded
    requires Valid(w, s)
  {
    if s.pending != [] then Loaded(true, s)
    else if s.left == 0 then LoadHeader(w, s)
    else LoadGroup(w, s)
  }

  lemma {:induction false} HeaderKeeps(w: Wav, s: State)
    requires Valid(w, s) && s.pending == []
    ensures var r := LoadHeader(w, s);
            && Valid(w, r.state) && r.state.cursor == s.cursor
            && (r.ok <==> r.state.pending != [])
  {
    hide Read16, Signed16;
    if s.pos + w.channels * WORD <= |w.data| {
      forall ch | 0 <= ch < w.channels
        ensures IsSample(HeaderVoice(w, s.pos, ch).predictor)
      {
        HeaderSample(w.data[s.pos + ch * WORD..]);
      }
    }
  }

  lemma {:induction false} HeaderSample(s: seq<Byte>)
    requires |s| >= 2
    ensures IsSample(Signed16(Read16(s)))
  {
  }

  lemma {:induction false} GroupKeeps(w: Wav, s: State)
    requires Valid(w, s) && s.pending == []
    ensures var r := LoadGroup(w, s);
            && Valid(w, r.state) && r.state.cursor == s.cursor
            && (r.ok <==> r.state.pending != [])
  {
    hide LoadWord;
    WordKeeps(w, s, 0);
    var (t, _) := LoadWord(w, s, 0);
    if w.channels == 2 {
      WordKeeps(w, t, 1);
    }
  }

  lemma {:induction false} RefillKeeps(w: Wav, s: State)
    requires Valid(w, s)
    ensures var r := Refill(w, s);
            && Valid(w, r.state) && r.state.cursor == s.cursor
            && (r.ok <==> r.state.pending != [])
  {
    hide LoadHeader, LoadGroup;
    if s.pending == [] {
      HeaderKeeps(w, s);
      GroupKeeps(w, s);
    }
  }

  function Take(s: State): State
    requires s.pending != []
  {
    s.(pending := s.pending[1..], cursor := s.cursor + 1)
  }

  function Pull(w: Wav, s: State): Pulled
    requires Valid(w, s)
  {
    if s.cursor == w.total then Stop(s)
    else
      var r := Refill(w, s);
      RefillKeeps(w, s);
      if !r.ok then Stop(r.state) else Next(r.state.pending[0], Take(r.state))
  }

  lemma {:induction false} PullKeeps(w: Wav, s: State)
    requires Valid(w, s)
    ensures Valid(w, Pull(w, s).state)
    ensures Pull(w, s).Next? ==> FrameOk(w, Pull(w, s).frame) && Pull(w, s).state.cursor == s.cursor + 1
    ensures Pull(w, s).Stop? ==> Pull(w, s).state.cursor == s.cursor
  {
    hide LoadHeader, LoadGroup;
    RefillKeeps(w, s);
  }

  datatype Frames = Frames(frames: seq<Frame>, state: State)

  /** Up to n frames, one pull at a time. */
  function Pulls(w: Wav, s: State, n: nat): Frames
    requires Valid(w, s)
    decreases n
  {
    if n == 0 then Frames([], s)
    else
      PullKeeps(w, s);
      match Pull(w, s)
      case Stop(t) => Frames([], t)
      case Next(f, t) =>
        var rest := Pulls(w, t, n - 1);
        Frames([f] + rest.frames, rest.state)
  }
}
