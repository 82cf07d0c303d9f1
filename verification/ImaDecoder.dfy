/** The decoder as it runs: a cache of sixteen samples filled from its end, and nested loops. */
module ImaDecoding {
  import opened Bytes
  import opened ImaSpec
  import opened ImaReads

  /** Where sample ch of the i-th of count cached frames is. */
  function Slot(channels: nat, count: nat, i: nat, ch: nat): int {
    CACHE_SIZE - count * channels + i * channels + ch
  }

  ghost predicate CacheShape(cells: seq<int>, channels: nat, count: nat) {
    |cells| == CACHE_SIZE && 1 <= channels <= 2 && count <= 8
  }

  ghost function CachedFrame(cells: seq<int>, channels: nat, count: nat, i: nat): Frame
    requires CacheShape(cells, channels, count) && i < count
  {
    if channels == 1 then [cells[Slot(1, count, i, 0)]] else [cells[Slot(2, count, i, 0)], cells[Slot(2, count, i, 1)]]
  }

  /** The frames in the cache. */
  ghost function CachedFrames(cells: seq<int>, channels: nat, count: nat): seq<Frame>
    requires CacheShape(cells, channels, count)
  {
    seq(count, i requires 0 <= i < count => CachedFrame(cells, channels, count, i))
  }

  ghost function VoicesOf(predictor: seq<int>, index: seq<int>, channels: nat): seq<Voice>
    requires |predictor| == |index| == 2 && 1 <= channels <= 2
  {
    if channels == 1 then [Voice(predictor[0], index[0])]
    else [Voice(predictor[0], index[0]), Voice(predictor[1], index[1])]
  }

  lemma {:induction false} DropFirst(cells: seq<int>, channels: nat, count: nat)
    requires CacheShape(cells, channels, count) && count > 0
    ensures CachedFrames(cells, channels, count)[1..] == CachedFrames(cells, channels, count - 1)
  {
    var tail := CachedFrames(cells, channels, count)[1..];
    forall i | 0 <= i < count - 1
      ensures tail[i] == CachedFrames(cells, channels, count - 1)[i]
    {
    }
  }

  /** The same for eight frames, which fill half of the cache or all of it. */
  function EighthSlot(channels: nat, i: nat, ch: nat): (k: int)
    requires 1 <= channels <= 2 && i < 8 && ch < channels
    ensures 0 <= k < CACHE_SIZE
    ensures k == Slot(channels, 8, i, ch)
  {
    CACHE_SIZE - 8 * channels + (if channels == 1 then i else 2 * i) + ch
  }

  /** Each voice of a run comes from the one before by its half of a byte. */
  lemma {:induction false} NudgesAt(v: Voice, word: seq<Byte>, i: nat)
    requires VoiceOk(v) && i < |word|
    ensures var run := Nudges(v, word);
            && run[2 * i] == Nudge(if i == 0 then v else run[2 * i - 1], word[i] % 16)
            && run[2 * i + 1] == Nudge(run[2 * i], word[i] / 16)
    decreases i
  {
    hide Nudge;
    if i > 0 {
      var high := Nudges(v, word)[1];
      NudgesAt(high, word[1..], i - 1);
    }
  }

  /** Sum of the parts of a step that the bits of a difference select. */
  method DiffOf(step: int, nibble: int) returns (diff: int)
    requires 0 <= nibble < 16
    ensures diff == Difference(step, nibble)
  {
    diff := step / 8;
    if nibble % 2 == 1 {
      diff := diff + step / 4;
    }
    if nibble / 2 % 2 == 1 {
      diff := diff + step / 2;
    }
    if nibble / 4 % 2 == 1 {
      diff := diff + step;
    }
    if nibble / 8 % 2 == 1 {
      diff := -diff;
    }
  }

  /** goal is what has been read so far followed by what n more pulls give. */
  ghost predicate Going(w: Wav, goal: Frames, out: seq<Frame>, s: State, n: nat) {
    Valid(w, s) && goal == Frames(out + Pulls(w, s, n).frames, Pulls(w, s, n).state)
  }

  lemma {:induction false} GoingValid(w: Wav, goal: Frames, out: seq<Frame>, s: State, n: nat)
    requires Going(w, goal, out, s, n)
    ensures Valid(w, s) && s.cursor <= w.total
  {
  }

  lemma {:induction false} GoingStart(w: Wav, s: State, n: nat)
    requires Valid(w, s)
    ensures Going(w, Pulls(w, s, n), [], s, n)
    ensures s.cursor == w.total ==> Pulls(w, s, n) == Frames([], s)
    ensures s.cursor <= w.total
  {
    var r := Pulls(w, s, n);
    assert [] + r.frames == r.frames;
  }

  lemma {:induction false} GoOn(w: Wav, goal: Frames, out: seq<Frame>, s: State, n: nat)
    requires Going(w, goal, out, s, n) && 0 < n && s.cursor < w.total && s.pending != []
    ensures Going(w, goal, out + [s.pending[0]], Take(s), n - 1)
  {
    hide Valid;
    PullKeeps(w, s);
    assert Pull(w, s) == Next(s.pending[0], Take(s));
    var rest := Pulls(w, Take(s), n - 1).frames;
    assert out + ([s.pending[0]] + rest) == out + [s.pending[0]] + rest;
  }

  lemma {:induction false} GoFilled(w: Wav, goal: Frames, out: seq<Frame>, s: State, n: nat)
    requires Going(w, goal, out, s, n) && 0 < n && s.cursor < w.total
    ensures var r := Refill(w, s);
            if r.ok then Going(w, goal, out, r.state, n) else goal == Frames(out, r.state)
  {
    hide Valid, LoadHeader, LoadGroup;
    RefillKeeps(w, s);
    PullKeeps(w, s);
    var r := Refill(w, s);
    if r.ok {
      assert Refill(w, r.state) == r;
      assert Pull(w, r.state) == Pull(w, s);
      assert Pulls(w, r.state, n) == Pulls(w, s, n);
    } else {
      assert out + [] == out;
    }
  }

  lemma {:induction false} GoneAll(w: Wav, goal: Frames, out: seq<Frame>, s: State, n: nat)
    requires Going(w, goal, out, s, n) && (n == 0 || s.cursor == w.total)
    ensures goal == Frames(out, s)
  {
    if n > 0 {
      NothingAtTotal(w, s, n);
    }
    assert out + [] == out;
  }

  lemma {:induction false} HeaderOkIff(w: Wav, pos: nat)
    requires WavOk(w) && pos + w.channels * WORD <= |w.data|
    ensures HeaderOk(w, pos) <==>
            w.data[pos + 2] <= MAX_INDEX && (w.channels == 2 ==> w.data[pos + 6] <= MAX_INDEX)
  {
    hide Read16, Signed16;
    assert HeaderVoice(w, pos, 0).index == w.data[pos + 2];
    if w.channels == 2 {
      assert HeaderVoice(w, pos, 1).index == w.data[pos + 6];
    }
  }

  class ImaDecoder {
    const wav: Wav
    const predictor: array<int>
    const stepIndex: array<int>
    const cached: array<int>

    var pos: nat
    var cursor: nat
    var left: nat
    var count: nat

    ghost predicate Shape()
      reads this
    {
      && WavOk(wav) && count <= 8
      && predictor.Length == stepIndex.Length == 2 && cached.Length == CACHE_SIZE
      && predictor != stepIndex && predictor != cached && stepIndex != cached
    }

    ghost function Voices(): seq<Voice>
      requires Shape()
      reads this, predictor, stepIndex
    {
      VoicesOf(predictor[..], stepIndex[..], wav.channels)
    }

    /** The state without the cache. */
    ghost function Core(): State
      requires Shape()
      reads this, predictor, stepIndex
    {
      State(pos, cursor, left, Voices(), [])
    }

    ghost function Abs(): State
      requires Shape()
      reads this, predictor, stepIndex, cached
    {
      Core().(pending := CachedFrames(cached[..], wav.channels, count))
    }

    ghost predicate Ok()
      reads this, predictor, stepIndex, cached
    {
      Shape() && Valid(wav, Abs())
    }

    constructor (wav: Wav)
      requires WavOk(wav)
      ensures Ok() && fresh(predictor) && fresh(stepIndex) && fresh(cached)
      ensures this.wav == wav && Abs() == State(0, 0, 0, seq(wav.channels, _ => Voice(0, 0)), [])
    {
      this.wav := wav;
      predictor := new int[2](_ => 0);
      stepIndex := new int[2](_ => 0);
      cached := new int[CACHE_SIZE](_ => 0);
      pos, cursor, left, count := 0, 0, 0, 0;
    }

    /** Loads the header of a block, whose samples become the only cached frame. */
    method ReadHeader() returns (ok: bool)
      requires Ok() && count == 0
      modifies this`pos, this`left, this`count, predictor, stepIndex, cached
      ensures Shape() && Loaded(ok, Abs()) == LoadHeader(wav, old(Abs()))
    {
      hide Read16, Signed16;
      var n := wav.channels * WORD;
      var at := pos;
      pos := Forward(wav, pos, n);
      if pos - at != n {
        return false;
      }
      left := Minus(wav.blockAlign, n);
      HeaderOkIff(wav, at);
      if wav.data[at + 2] > MAX_INDEX || (wav.channels == 2 && wav.data[at + 6] > MAX_INDEX) {
        pos := Seek(wav, pos, left);
        left := 0;
        return false;
      }
      predictor[0] := Signed16(Read16(wav.data[at..]));
      stepIndex[0] := wav.data[at + 2];
      if wav.channels == 2 {
        predictor[1] := Signed16(Read16(wav.data[at + 4..]));
        stepIndex[1] := wav.data[at + 6];
        cached[CACHE_SIZE - 2] := predictor[0];
      }
      cached[CACHE_SIZE - 1] := predictor[wav.channels - 1];
      count := 1;
      ok := true;
      ghost var r := LoadHeader(wav, old(Abs())).state;
      assert HeaderVoice(wav, at, 0) == Voice(predictor[0], stepIndex[0]);
      assert wav.channels == 2 ==> HeaderVoice(wav, at, 1) == Voice(predictor[1], stepIndex[1]);
      assert Voices() == r.voices;
      assert r.pending[0] == CachedFrame(cached[..], wav.channels, 1, 0);
    }

    ghost function VoiceAt(ch: nat): Voice
      requires Shape() && ch < wav.channels
      reads this, predictor, stepIndex
    {
      Voice(predictor[ch], stepIndex[ch])
    }

    /** Applies one 4-bit difference to a channel. */
    method StepVoice(ch: nat, nibble: int)
      requires Shape() && ch < wav.channels && VoiceOk(VoiceAt(ch)) && 0 <= nibble < 16
      modifies predictor, stepIndex
      ensures VoiceAt(ch) == Nudge(old(VoiceAt(ch)), nibble)
      ensures forall i :: 0 <= i < 2 && i != ch ==> predictor[i] == old(predictor[i]) && stepIndex[i] == old(stepIndex[i])
    {
      hide StepAt, Difference, IndexChange;
      var diff := DiffOf(StepAt(stepIndex[ch]), nibble);
      predictor[ch] := Clamp(predictor[ch] + diff, -32768, 32767);
      stepIndex[ch] := Clamp(stepIndex[ch] + IndexChange(nibble), 0, MAX_INDEX);
    }

    /** Decodes a word of one channel into its places among eight cached frames. */
    method DecodeWord(ch: nat, word: seq<Byte>)
      requires Shape() && ch < wav.channels && VoiceOk(VoiceAt(ch)) && |word| == WORD
      modifies predictor, stepIndex, cached
      ensures VoiceAt(ch) == Nudges(old(VoiceAt(ch)), word)[7]
      ensures forall i :: 0 <= i < 2 && i != ch ==> predictor[i] == old(predictor[i]) && stepIndex[i] == old(stepIndex[i])
      ensures forall i :: 0 <= i < 8 ==> cached[EighthSlot(wav.channels, i, ch)] == Nudges(old(VoiceAt(ch)), word)[i].predictor
      ensures forall i, k :: 0 <= i < 8 && 0 <= k < wav.channels && k != ch ==>
                cached[EighthSlot(wav.channels, i, k)] == old(cached[EighthSlot(wav.channels, i, k)])
    {
      hide Nudges, Nudge;
      ghost var v := VoiceAt(ch);
      ghost var run := Nudges(v, word);
      var c := wav.channels;
      var i := 0;
      while i < WORD
        invariant 0 <= i <= WORD
        invariant VoiceAt(ch) == if i == 0 then v else run[2 * i - 1]
        invariant forall k :: 0 <= k < 2 && k != ch ==> predictor[k] == old(predictor[k]) && stepIndex[k] == old(stepIndex[k])
        invariant forall j :: 0 <= j < 2 * i ==> cached[EighthSlot(c, j, ch)] == run[j].predictor
        invariant forall j, k :: 0 <= j < 8 && 0 <= k < c && k != ch ==>
                    cached[EighthSlot(c, j, k)] == old(cached[EighthSlot(c, j, k)])
      {
        NudgesAt(v, word, i);
        StepVoice(ch, word[i] % 16);
        cached[EighthSlot(c, 2 * i, ch)] := predictor[ch];
        StepVoice(ch, word[i] / 16);
        cached[EighthSlot(c, 2 * i + 1, ch)] := predictor[ch];
        i := i + 1;
      }
    }

    /** Decodes the next word of every channel; the cache is empty if the data ends. */
    method ReadGroup() returns (ok: bool)
      requires Ok() && count == 0
      modifies this`pos, this`left, this`count, predictor, stepIndex, cached
      ensures Shape() && Loaded(ok, Abs()) == LoadGroup(wav, old(Abs()))
    {
      hide Nudges;
      ghost var s := Abs();
      count := 8;
      var more := ReadWord(0);
      if !more {
        count := 0;
        return false;
      }
      ghost var (s1, first) := LoadWord(wav, s, 0);
      WordKeeps(wav, s, 0);
      if wav.channels == 2 {
        more := ReadWord(1);
        if !more {
          count := 0;
          return false;
        }
      }
      ok := true;
    }

    /** One channel's turn. */
    method ReadWord(ch: nat) returns (ok: bool)
      requires Shape() && ch < wav.channels && Valid(wav, Core())
      modifies this`pos, this`left, predictor, stepIndex, cached
      ensures Shape() && Core() == LoadWord(wav, old(Core()), ch).0
      ensures ok <==> LoadWord(wav, old(Core()), ch).1 != []
      ensures ok ==> forall i :: 0 <= i < 8 ==>
                cached[EighthSlot(wav.channels, i, ch)] == LoadWord(wav, old(Core()), ch).1[i]
      ensures forall i, k :: 0 <= i < 8 && 0 <= k < wav.channels && k != ch ==>
                cached[EighthSlot(wav.channels, i, k)] == old(cached[EighthSlot(wav.channels, i, k)])
    {
      hide Nudges;
      assert Core().voices[ch] == VoiceAt(ch);
      var at := pos;
      pos := Forward(wav, pos, WORD);
      if pos - at != WORD {
        return false;
      }
      left := Minus(left, WORD);
      DecodeWord(ch, wav.data[at..at + WORD]);
      ok := true;
      assert Voices() == old(Core()).voices[ch := VoiceAt(ch)];
    }

    /** Hands out cached frames, as many as wanted and allowed. */
    method Drain(n: nat, out: seq<Frame>, ghost goal: Frames) returns (n': nat, out': seq<Frame>)
      requires Ok() && Going(wav, goal, out, Abs(), n)
      modifies this`cursor, this`count
      ensures Ok() && Going(wav, goal, out', Abs(), n')
      ensures n' <= n && |out'| - |out| == n - n' == cursor - old(cursor)
      ensures n' == 0 || count == 0 || cursor == wav.total
      ensures 0 < n && 0 < old(count) && old(cursor) < wav.total ==> n' < n
      ensures count <= old(count)
    {
      hide Going, Valid;
      GoingValid(wav, goal, out, Abs(), n);
      n', out' := n, out;
      while n' > 0 && count > 0 && cursor < wav.total
        invariant Ok() && Going(wav, goal, out', Abs(), n')
        invariant cursor <= wav.total
        invariant n' <= n && |out'| - |out| == n - n' == cursor - old(cursor) == old(count) - count
      {
        ghost var s := Abs();
        GoOn(wav, goal, out', s, n');
        DropFirst(cached[..], wav.channels, count);
        var frame := [cached[CACHE_SIZE - count * wav.channels]];
        if wav.channels == 2 {
          frame := frame + [cached[CACHE_SIZE - count * wav.channels + 1]];
        }
        out' := out' + [frame];
        n' := n' - 1;
        cursor := cursor + 1;
        count := count - 1;
        assert frame == s.pending[0];
        assert Abs() == Take(s);
        assert Going(wav, goal, out', Abs(), n');
        GoingValid(wav, goal, out', Abs(), n');
      }
    }

    /** drwav_read_pcm_frames_s16__ima */
    method ReadFrames(framesToRead: nat) returns (out: seq<Frame>)
      requires Ok() && framesToRead > 0
      modifies this, predictor, stepIndex, cached
      ensures Ok() && Frames(out, Abs()) == Read(wav, old(Abs()), framesToRead)
    {
      hide Valid, Going, LoadHeader, LoadGroup, Pulls;
      ghost var s := Abs();
      ghost var goal := Pulls(wav, s, framesToRead);
      out := [];
      var n := framesToRead;
      GoingStart(wav, s, n);
      while cursor < wav.total
        invariant Ok() && 0 < n && |out| + n == framesToRead && cursor <= wav.total
        invariant cursor < wav.total ==> Going(wav, goal, out, Abs(), n)
        invariant cursor == wav.total ==> Frames(out, Abs()) == Read(wav, s, framesToRead)
        decreases n, if count == 0 && left != 0 then 1 else 0
      {
        if count == 0 && left == 0 {
          GoFilled(wav, goal, out, Abs(), n);
          RefillKeeps(wav, Abs());
          var ok := ReadHeader();
          if !ok {
            return;
          }
        }
        n, out := Drain(n, out, goal);
        GoingValid(wav, goal, out, Abs(), n);
        if n == 0 {
          GoneAll(wav, goal, out, Abs(), n);
          break;
        }
        if cursor == wav.total {
          GoneAll(wav, goal, out, Abs(), n);
        }
        if count == 0 {
          if left == 0 {
            continue;
          }
          ghost var before := Abs();
          if cursor < wav.total {
            GoFilled(wav, goal, out, before, n);
          }
          RefillKeeps(wav, before);
          var ok := ReadGroup();
          if !ok {
            return;
          }
        }
      }
    }
  }
}
