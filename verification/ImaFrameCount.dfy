/** How many frames well-formed data holds, computed from its size and by decoding it. */
module ImaFrameCount {
  import opened Arith
  import opened ImaSpec
  import opened ImaReads

  /** The count made when a stream is opened, in 64-bit arithmetic. */
  function FrameCount(size: nat, blockAlign: nat, channels: nat): nat
    requires 0 < blockAlign && 0 < channels
  {
    var whole := size / blockAlign;
    var blocks := if whole * blockAlign < size then whole + 1 else whole;
    var headers := blocks * (WORD * channels);
    (((size - headers) % WRAP64 * 2 % WRAP64) / channels + blocks) % WRAP64
  }

  /** The rest of the data is k whole blocks with good headers. */
  ghost predicate Blocks(w: Wav, pos: nat, k: nat)
    requires WavOk(w)
    decreases k
  {
    if k == 0 then pos == |w.data|
    else
      && w.channels * WORD <= w.blockAlign
      && pos + w.blockAlign <= |w.data|
      && HeaderOk(w, pos)
      && Blocks(w, pos + w.blockAlign, k - 1)
  }

  /** Frames in k blocks of g groups. */
  function InBlocks(k: nat, g: nat): nat {
    if k == 0 then 0 else 1 + 8 * g + InBlocks(k - 1, g)
  }

  /** rem groups are left in the current block, k blocks follow it. */
  ghost predicate Stocked(w: Wav, s: State, g: nat, rem: nat, k: nat) {
    && Valid(w, s) && rem <= g
    && w.blockAlign == w.channels * WORD + w.channels * WORD * g
    && s.left == w.channels * WORD * rem
    && Blocks(w, s.pos + s.left, k)
  }

  function Stock(s: State, g: nat, rem: nat, k: nat): nat { |s.pending| + 8 * rem + InBlocks(k, g) }

  lemma {:induction false} BlocksFit(w: Wav, pos: nat, k: nat)
    requires WavOk(w) && Blocks(w, pos, k)
    ensures pos <= |w.data|
  {
  }

  lemma {:induction false} HeaderStocked(w: Wav, s: State, g: nat, k: nat)
    requires Stocked(w, s, g, 0, k) && s.pending == [] && k > 0
    ensures var r := LoadHeader(w, s); r.ok && |r.state.pending| == 1 && Stocked(w, r.state, g, g, k - 1)
  {
    hide HeaderVoice, HeaderOk;
    HeaderKeeps(w, s);
    var r := LoadHeader(w, s);
    assert r.state.left == w.blockAlign - w.channels * WORD;
    assert r.state.pos + r.state.left == s.pos + w.blockAlign;
  }

  lemma {:induction false} WordStocked(w: Wav, s: State, ch: nat)
    requires Valid(w, s) && ch < w.channels && WORD <= s.left && s.pos + s.left <= |w.data|
    ensures var (t, samples) := LoadWord(w, s, ch);
            && t.pos == s.pos + WORD && t.left == s.left - WORD && samples != []
  {
    hide Nudges;
  }

  lemma {:induction false} GroupStocked(w: Wav, s: State, g: nat, rem: nat, k: nat)
    requires Stocked(w, s, g, rem, k) && s.pending == [] && rem > 0
    ensures var r := LoadGroup(w, s); r.ok && |r.state.pending| == 8 && Stocked(w, r.state, g, rem - 1, k)
  {
    hide LoadWord, Blocks;
    BlocksFit(w, s.pos + s.left, k);
    GroupKeeps(w, s);
    WordKeeps(w, s, 0);
    WordStocked(w, s, 0);
    if w.channels == 2 {
      var (t, _) := LoadWord(w, s, 0);
      WordKeeps(w, t, 1);
      WordStocked(w, t, 1);
    }
  }

  /** One pull takes one frame off the stock, and there is none exactly when the stock is empty. */
  lemma {:induction false} PullStocked(w: Wav, s: State, g: nat, rem: nat, k: nat) returns (rem': nat, k': nat)
    requires Stocked(w, s, g, rem, k) && s.cursor < w.total
    ensures Pull(w, s).Next? <==> Stock(s, g, rem, k) > 0
    ensures Pull(w, s).Next? ==>
              && Stocked(w, Pull(w, s).state, g, rem', k')
              && Stock(Pull(w, s).state, g, rem', k') == Stock(s, g, rem, k) - 1
  {
    hide LoadHeader, LoadGroup, Blocks;
    rem', k' := rem, k;
    RefillKeeps(w, s);
    PullKeeps(w, s);
    if s.pending == [] {
      if rem > 0 {
        GroupStocked(w, s, g, rem, k);
        rem' := rem - 1;
      } else if k > 0 {
        HeaderStocked(w, s, g, k);
        rem', k' := g, k - 1;
      } else {
        EmptyStock(w, s, g);
      }
    }
  }

  lemma {:induction false} EmptyStock(w: Wav, s: State, g: nat)
    requires Stocked(w, s, g, 0, 0) && s.pending == [] && s.cursor < w.total
    ensures Pull(w, s).Stop?
  {
  }

  /** Asked for n frames, the decoder gives n unless the stream or the stock ends. */
  lemma {:induction false} PullsStocked(w: Wav, s: State, g: nat, rem: nat, k: nat, n: nat)
    requires Stocked(w, s, g, rem, k)
    ensures |Pulls(w, s, n).frames| == Min(n, Min(w.total - s.cursor, Stock(s, g, rem, k)))
    decreases n
  {
    hide Pull, Stocked, Stock;
    StockedValid(w, s, g, rem, k);
    if n > 0 {
      PullKeeps(w, s);
      if s.cursor == w.total {
        NothingAtTotal(w, s, n);
      } else {
        var rem', k' := PullStocked(w, s, g, rem, k);
        if Pull(w, s).Next? {
          PullsStocked(w, Pull(w, s).state, g, rem', k', n - 1);
        }
      }
    }
  }

  lemma {:induction false} StockedValid(w: Wav, s: State, g: nat, rem: nat, k: nat)
    requires Stocked(w, s, g, rem, k)
    ensures Valid(w, s) && s.cursor <= w.total && Stock(s, g, rem, k) >= 0
  {
  }

  lemma {:induction false} InBlocksIs(k: nat, g: nat)
    ensures InBlocks(k, g) == k * (1 + 8 * g)
  {
    if k > 0 {
      InBlocksIs(k - 1, g);
      assert (k - 1) * (1 + 8 * g) == k * (1 + 8 * g) - (1 + 8 * g);
    }
  }

  lemma {:induction false} BlocksSize(w: Wav, pos: nat, k: nat)
    requires WavOk(w) && Blocks(w, pos, k)
    ensures |w.data| == pos + k * w.blockAlign
    decreases k
  {
    hide HeaderOk;
    if k > 0 {
      BlocksSize(w, pos + w.blockAlign, k - 1);
      assert (k - 1) * w.blockAlign == k * w.blockAlign - w.blockAlign;
    }
  }

  lemma {:induction false} GroupBytes(k: nat, g: nat, unit: nat)
    ensures k * (unit + unit * g) - k * unit == unit * (k * g)
    ensures k * (1 + 8 * g) == k + 8 * (k * g)
  {
    calc {
      k * (unit + unit * g);
      k * unit + k * (unit * g);
      { MulAssoc(k, unit, g); MulAssoc(unit, k, g); }
      k * unit + unit * (k * g);
    }
  }

  /** A payload of whole groups: four bytes of a channel are eight frames. */
  lemma {:induction false} PayloadFrames(groups: nat, channels: nat)
    requires 1 <= channels <= 2 && WORD * channels * groups < WRAP64 / 4
    ensures (WORD * channels * groups % WRAP64 * 2 % WRAP64) / channels == 8 * groups
  {
    if channels == 1 {
    } else {
      assert WORD * channels * groups == 8 * groups;
    }
  }

  /** For whole blocks the arithmetic gives one frame per header and eight per group. */
  lemma {:induction false} CountOfBlocks(k: nat, g: nat, channels: nat, blockAlign: nat)
    requires 1 <= channels <= 2 && blockAlign == WORD * channels + WORD * channels * g
    requires k * blockAlign < WRAP64 / 4
    ensures FrameCount(k * blockAlign, blockAlign, channels) == InBlocks(k, g)
  {
    hide InBlocks;
    InBlocksIs(k, g);
    var unit := WORD * channels;
    GroupBytes(k, g, unit);
    DivExact(blockAlign, k);
    var payload := k * blockAlign - k * unit;
    assert payload == unit * (k * g);
    PayloadFrames(k * g, channels);
    MulMono(1, blockAlign, k);
  }

  lemma {:induction false} StartStocked(w: Wav, k: nat, g: nat)
    requires WavOk(w) && Blocks(w, 0, k)
    requires w.blockAlign == w.channels * WORD + w.channels * WORD * g
    ensures var start := State(0, 0, 0, seq(w.channels, _ => Voice(0, 0)), []);
            Valid(w, start) && Stocked(w, start, g, 0, k) && Stock(start, g, 0, k) == InBlocks(k, g)
  {
    hide Blocks;
  }

  /**
   * On well-formed data the count made at opening is what the decoder gives, no more and no less:
   * all of it is read, and a stream that promised more would end there all the same.
   */
  lemma {:induction false} CountIsExact(w: Wav, k: nat, g: nat, n: nat)
    requires WavOk(w) && Blocks(w, 0, k) && |w.data| < WRAP64 / 4
    requires w.blockAlign == w.channels * WORD + w.channels * WORD * g
    requires var count := FrameCount(|w.data|, w.blockAlign, w.channels); count <= w.total && count <= n
    ensures var start := State(0, 0, 0, seq(w.channels, _ => Voice(0, 0)), []);
            Valid(w, start) && |Read(w, start, n).frames| == FrameCount(|w.data|, w.blockAlign, w.channels)
  {
    hide FrameCount, Stocked, Blocks, Pulls;
    var start := State(0, 0, 0, seq(w.channels, _ => Voice(0, 0)), []);
    BlocksSize(w, 0, k);
    CountOfBlocks(k, g, w.channels, w.blockAlign);
    StartStocked(w, k, g);
    PullsStocked(w, start, g, 0, k, n);
  }
}
