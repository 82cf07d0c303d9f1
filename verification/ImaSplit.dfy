/**
 * When reading n and then m frames is reading n + m, as a fact about the data: the layout of blocks
 * and the step indices in their headers decide, samples do not matter.
 */
module ImaSplit {
  import opened Arith
  import opened ImaReads
  import opened ImaSpec
  import opened Options

  // ---------------------------------------------------------------- layout

  /** Bytes of one header, or of one group of eight frames. */
  function Unit(w: Wav): nat { if w.channels == 1 then 4 else 8 }

  /** A number of bytes is a number of groups. */
  predicate Whole(w: Wav, bytes: nat) { if w.channels == 1 then bytes % 4 == 0 else bytes % 8 == 0 }

  function Groups(w: Wav, bytes: nat): nat { if w.channels == 1 then bytes / 4 else bytes / 8 }

  predicate Complete(w: Wav, h: nat) { h + Unit(w) <= |w.data| }

  /** There is a whole header with good step indices. */
  predicate GoodHeader(w: Wav, h: nat)
    requires WavOk(w)
  {
    Complete(w, h) && HeaderOk(w, h)
  }

  /** The first bad header among those at h and whole blocks after it, if fewer than budget frames lie before it. */
  function BadFrom(w: Wav, h: nat, budget: int): Option<nat>
    requires WavOk(w)
    decreases if budget > 0 then budget else 0
  {
    if budget <= 0 || !Complete(w, h) then None
    else if !HeaderOk(w, h) then Some(h)
    else if !Whole(w, w.blockAlign) then None
    else BadFrom(w, h + w.blockAlign, budget + 7 - 8 * Groups(w, w.blockAlign))
  }

  /** Frames that a read of n may still give before the next header. */
  function Budget(w: Wav, s: State, n: nat): int
    requires s.cursor <= w.total
  {
    Min(n, w.total - s.cursor) - |s.pending| - 8 * Groups(w, s.left)
  }

  /** The bad header that a read of n frames meets, if any. */
  function BadHeader(w: Wav, s: State, n: nat): Option<nat>
    requires WavOk(w) && s.cursor <= w.total
  {
    if Whole(w, s.left) then BadFrom(w, s.pos + s.left, Budget(w, s, n)) else None
  }

  /** Where the decoder goes on after a bad header. */
  function AfterBad(w: Wav, h: nat): nat
    requires WavOk(w)
  {
    Seek(w, h + Unit(w), Minus(w.blockAlign, Unit(w)))
  }

  lemma {:induction false} HeaderLayout(w: Wav, s: State, n: nat)
    requires Valid(w, s) && s.pending == [] && s.left == 0 && s.cursor < w.total && 0 < n
    ensures var r := LoadHeader(w, s);
            && (r.ok <==> GoodHeader(w, s.pos))
            && (r.ok ==> r.state.cursor == s.cursor && BadHeader(w, r.state, n) == BadHeader(w, s, n))
            && (!r.ok && !Complete(w, s.pos) ==> r.state == s.(pos := |w.data|) && BadHeader(w, s, n) == None)
            && (!r.ok && Complete(w, s.pos) ==> r.state == s.(pos := AfterBad(w, s.pos)) && BadHeader(w, s, n) == Some(s.pos))
  {
    hide HeaderOk, HeaderVoice, Seek;
    var r := LoadHeader(w, s);
    if r.ok {
      assert |r.state.pending| == 1 && r.state.pos == s.pos + Unit(w);
      BlockLayout(w);
    }
  }

  /** A header and the rest of its block. */
  lemma {:induction false} BlockLayout(w: Wav)
    requires WavOk(w)
    ensures var left := Minus(w.blockAlign, Unit(w));
            && (Whole(w, left) <==> Whole(w, w.blockAlign))
            && (Whole(w, left) ==> Unit(w) + left == w.blockAlign && 1 + 8 * Groups(w, left) == 8 * Groups(w, w.blockAlign) - 7)
  {
    hide Minus;
    if w.channels == 1 {
      MinusWhole(w.blockAlign, 4);
    } else {
      MinusWhole(w.blockAlign, 8);
    }
  }

  /** Taking a whole unit off a number of 32 bits. */
  lemma {:induction false} MinusWhole(n: nat, unit: nat)
    requires 0 < n < WRAP && (unit == 4 || unit == 8)
    ensures var rest := Minus(n, unit);
            && (rest % unit == 0 <==> n % unit == 0)
            && (n % unit == 0 ==> rest == n - unit && rest / unit == n / unit - 1)
  {
    if n >= unit {
      assert Minus(n, unit) == n - unit;
    } else {
      assert Minus(n, unit) == n - unit + WRAP;
    }
  }

  lemma {:induction false} MinusTwice(n: nat)
    requires n < WRAP
    ensures Minus(Minus(n, WORD), WORD) == Minus(n, 2 * WORD)
  {
  }

  lemma {:induction false} GroupLayout(w: Wav, s: State, n: nat)
    requires Valid(w, s) && s.pending == [] && s.left != 0
    ensures var r := LoadGroup(w, s);
            && (r.ok <==> Complete(w, s.pos))
            && (r.ok ==>
                  && r.state.pos == s.pos + Unit(w) && r.state.left == Minus(s.left, Unit(w)) && |r.state.pending| == 8
                  && r.state.cursor == s.cursor && BadHeader(w, r.state, n) == BadHeader(w, s, n))
            && (!r.ok ==> r.state.pos == |w.data| && r.state.pending == [] && BadHeader(w, s, n) == None)
  {
    hide Nudges, BadFrom;
    GroupKeeps(w, s);
    var r := LoadGroup(w, s);
    var (t, left) := LoadWord(w, s, 0);
    WordKeeps(w, s, 0);
    if left != [] && w.channels == 2 {
      WordKeeps(w, t, 1);
    }
    GroupLeft(w, s.left);
    if !r.ok {
      NoHeader(w, s.pos + s.left, Budget(w, s, n));
    }
  }

  lemma {:induction false} GroupLeft(w: Wav, left: nat)
    requires WavOk(w) && 0 < left < WRAP
    ensures var rest := Minus(left, Unit(w));
            && (w.channels == 2 ==> rest == Minus(Minus(left, WORD), WORD))
            && (Whole(w, rest) <==> Whole(w, left))
            && (Whole(w, left) ==> rest == left - Unit(w) && Groups(w, rest) == Groups(w, left) - 1)
  {
    hide Minus;
    if w.channels == 1 {
      MinusWhole(left, 4);
    } else {
      MinusWhole(left, 8);
      MinusTwice(left);
    }
  }

  lemma {:induction false} NoHeader(w: Wav, h: nat, budget: int)
    requires WavOk(w) && !Complete(w, h)
    ensures BadFrom(w, h, budget) == None
  {
  }

  lemma {:induction false} PullLayout(w: Wav, s: State, n: nat)
    requires Valid(w, s) && 0 < n && s.cursor < w.total
    ensures var r := Pull(w, s);
            && Valid(w, r.state)
            && match BadHeader(w, s, n)
               case Some(h) => if r.Next? then BadHeader(w, r.state, n - 1) == Some(h) else StoppedAt(w, r.state, h)
               case None => if r.Next? then BadHeader(w, r.state, n - 1) == None else Drained(w, r.state)
  {
    hide BadFrom, LoadHeader, LoadGroup, Valid, HeaderOk;
    PullKeeps(w, s);
    RefillKeeps(w, s);
    ValidBounds(w, s);
    if s.pending == [] {
      if s.left == 0 {
        HeaderLayout(w, s, n);
      } else {
        GroupLayout(w, s, n);
      }
    }
    if Refill(w, s).ok {
      TakeLayout(w, Refill(w, s).state, n);
    }
  }

  /** The state in which a read that met a bad header leaves the decoder. */
  ghost predicate StoppedAt(w: Wav, s: State, h: nat)
    requires WavOk(w)
  {
    s.cursor < w.total && s.pending == [] && s.left == 0 && Complete(w, h) && s.pos == AfterBad(w, h)
  }

  /** Nothing is cached and the data is used up. */
  ghost predicate Drained(w: Wav, s: State) { s.pending == [] && s.pos == |w.data| }

  lemma {:induction false} ValidBounds(w: Wav, s: State)
    requires Valid(w, s)
    ensures WavOk(w) && s.cursor <= w.total && s.pos <= |w.data| && s.left < WRAP
  {
  }

  lemma {:induction false} TakeLayout(w: Wav, s: State, n: nat)
    requires WavOk(w) && s.pending != [] && s.cursor < w.total && 0 < n
    ensures BadHeader(w, Take(s), n - 1) == BadHeader(w, s, n)
  {
  }

  /** A read is cut short by the bad header that the data says it meets, or else only by the end. */
  lemma {:induction false} ShortReadCause(w: Wav, s: State, n: nat)
    requires Valid(w, s)
    ensures var r := Pulls(w, s, n);
            && Valid(w, r.state)
            && match BadHeader(w, s, n)
               case Some(h) => |r.frames| < n && StoppedAt(w, r.state, h)
               case None => |r.frames| == n || r.state.cursor == w.total || Drained(w, r.state)
    decreases n
  {
    hide BadFrom, Pull, Valid, StoppedAt;
    ValidBounds(w, s);
    PullsKeep(w, s, n);
    if n == 0 || s.cursor == w.total {
      NoBudget(w, s, n);
      if n > 0 {
        NothingAtTotal(w, s, n);
      }
    } else {
      PullLayout(w, s, n);
      PullKeeps(w, s);
      if Pull(w, s).Next? {
        ShortReadCause(w, Pull(w, s).state, n - 1);
      }
    }
  }

  lemma {:induction false} NoBudget(w: Wav, s: State, n: nat)
    requires WavOk(w) && s.cursor <= w.total && (n == 0 || s.cursor == w.total)
    ensures BadHeader(w, s, n) == None
  {
  }

  // ---------------------------------------------------------------- samples

  /** What the second read gives after a bad header: nothing, unless a good header follows. */
  lemma {:induction false} AfterStop(w: Wav, t: State, h: nat, m: nat)
    requires Valid(w, t) && StoppedAt(w, t, h)
    ensures Read(w, t, m).frames == [] <==> m == 0 || !GoodHeader(w, t.pos)
    ensures Read(w, t, m).state == t <==> m == 0 || t.pos == |w.data|
  {
    hide LoadGroup, LoadHeader, HeaderOk, Seek;
    ReadKeeps(w, t, m);
    if m > 0 {
      HeaderLayout(w, t, m);
      HeaderKeeps(w, t);
      PullKeeps(w, t);
      assert Refill(w, t) == LoadHeader(w, t);
      if GoodHeader(w, t.pos) {
        assert Pull(w, t).Next?;
        assert Pulls(w, t, m).frames != [];
      } else {
        assert Pulls(w, t, m) == Frames([], LoadHeader(w, t).state);
        if Complete(w, t.pos) {
          SeekMoves(w, t.pos);
        }
      }
    }
  }

  lemma {:induction false} SeekMoves(w: Wav, h: nat)
    requires WavOk(w) && Complete(w, h)
    ensures AfterBad(w, h) > h
  {
  }

  /**
   * Two reads give the samples of one longer read, except when the first meets a bad header and a
   * good one is where the decoder goes on.
   */
  lemma {:induction false} SplitSamplesIff(w: Wav, s: State, n: nat, m: nat)
    requires Valid(w, s)
    ensures var first := Read(w, s, n);
            var bad := BadHeader(w, s, n);
            && Valid(w, first.state)
            && (Read(w, s, n + m).frames == first.frames + Read(w, first.state, m).frames <==>
                !(0 < m && bad.Some? && GoodHeader(w, AfterBad(w, bad.value))))
  {
    hide Pulls, Valid, LoadGroup, BadHeader, GoodHeader, AfterBad;
    ValidBounds(w, s);
    SplitByOutcome(w, s, n, m);
    ShortReadCause(w, s, n);
    ReadKeeps(w, s, n);
    PullsKeep(w, s, n);
    var first := Read(w, s, n);
    match BadHeader(w, s, n) {
      case Some(h) =>
        AfterStop(w, first.state, h, m);
      case None =>
        if |first.frames| < n {
          ShortReadIsLast(w, s, n, m);
        }
    }
  }

  /** All headers from h on are good. */
  ghost predicate HeadersGood(w: Wav, h: nat)
    requires WavOk(w)
    decreases |w.data| - h
  {
    Complete(w, h) ==> HeaderOk(w, h) && HeadersGood(w, h + w.blockAlign)
  }

  lemma {:induction false} NoneBad(w: Wav, h: nat, budget: int)
    requires WavOk(w) && HeadersGood(w, h)
    ensures BadFrom(w, h, budget) == None
    decreases |w.data| - h
  {
    hide HeaderOk;
    if Complete(w, h) {
      NoneBad(w, h + w.blockAlign, budget + 7 - 8 * Groups(w, w.blockAlign));
    }
  }

  /** On data without bad headers n and then m frames are always n + m frames. */
  lemma {:induction false} GoodDataSplits(w: Wav, s: State, n: nat, m: nat)
    requires Valid(w, s) && HeadersGood(w, s.pos + s.left)
    ensures var first := Read(w, s, n);
            Valid(w, first.state) && Read(w, s, n + m).frames == first.frames + Read(w, first.state, m).frames
  {
    hide Read, HeadersGood, BadFrom;
    SplitSamplesIff(w, s, n, m);
    NoneBad(w, s.pos + s.left, Budget(w, s, n));
  }

  // ---------------------------------------------------------------- state

  /** A place in the layout: position, bytes left in the block, frames cached. */
  datatype Place = Place(pos: nat, left: nat, count: nat)

  function PlaceOf(s: State): Place { Place(s.pos, s.left, |s.pending|) }

  function GroupBytes(w: Wav, groups: nat): nat { if w.channels == 1 then 4 * groups else 8 * groups }

  /** The place n frames on inside a block, reading whole groups. */
  function InBlock(w: Wav, pos: nat, left: nat, n: nat): Option<Place> {
    var groups := (n + 7) / 8;
    var bytes := GroupBytes(w, groups);
    if pos + bytes > |w.data| then None
    else Some(Place(pos + bytes, (left - bytes) % WRAP, 8 * groups - n))
  }

  lemma {:induction false} InBlockNext(w: Wav, pos: nat, left: nat, n: nat)
    requires WavOk(w) && left < WRAP && 8 < n
    ensures InBlock(w, pos, left, n) ==
            if Complete(w, pos) then InBlock(w, pos + Unit(w), Minus(left, Unit(w)), n - 8) else None
  {
    var g := (n + 7) / 8;
    assert (n - 8 + 7) / 8 == g - 1;
    var bytes := GroupBytes(w, g - 1);
    assert GroupBytes(w, g) == Unit(w) + bytes;
    MinusMinus(left, Unit(w), bytes);
  }

  lemma {:induction false} MinusMinus(left: nat, a: nat, b: nat)
    requires left < WRAP && a < WRAP
    ensures (Minus(left, a) - b) % WRAP == (left - a - b) % WRAP
  {
    var x := left - a;
    var q := x / WRAP;
    assert x == WRAP * q + x % WRAP;
    assert x - b == WRAP * q + (x % WRAP - b);
  }

  /** The place n frames on, if there are so many: whole blocks first, then whole groups. */
  function PlaceAfter(w: Wav, p: Place, n: nat): Option<Place>
    requires WavOk(w) && p.left < WRAP
    decreases n, if p.count == 0 then 1 else 0
  {
    if n <= p.count then Some(p.(count := p.count - n))
    else if p.left == 0 then
      if !GoodHeader(w, p.pos) then None
      else PlaceAfter(w, Place(p.pos + Unit(w), Minus(w.blockAlign, Unit(w)), 1), n - p.count)
    else
      var rest := n - p.count;
      if Whole(w, p.left) && 8 * Groups(w, p.left) < rest then
        if p.pos + p.left > |w.data| then None
        else PlaceAfter(w, Place(p.pos + p.left, 0, 0), rest - 8 * Groups(w, p.left))
      else InBlock(w, p.pos, p.left, rest)
  }

  lemma {:induction false} PlaceCached(w: Wav, p: Place, n: nat)
    requires WavOk(w) && p.left < WRAP && p.pos <= |w.data| && 0 < n && 0 < p.count
    ensures PlaceAfter(w, p, n) == PlaceAfter(w, p.(count := p.count - 1), n - 1)
  {
    hide GoodHeader;
    if n <= p.count {
    } else if p.left == 0 {
    } else {
    }
  }

  /** After one group the place of any later frame is the same. */
  lemma {:induction false} PlaceGroup(w: Wav, pos: nat, left: nat, n: nat)
    requires WavOk(w) && 0 < left < WRAP && 0 < n && pos <= |w.data|
    ensures PlaceAfter(w, Place(pos, left, 0), n) ==
            if Complete(w, pos) then PlaceAfter(w, Place(pos + Unit(w), Minus(left, Unit(w)), 8), n) else None
  {
    hide GoodHeader, InBlock;
    GroupLeft(w, left);
    var p, next := Place(pos, left, 0), Place(pos + Unit(w), Minus(left, Unit(w)), 8);
    if n <= 8 {
      FirstGroup(w, pos, left, n);
    } else if Whole(w, left) && 8 * Groups(w, left) < n {
      if Complete(w, pos) && next.left == 0 {
        assert PlaceAfter(w, Place(pos + left, 0, 0), n - 8) == PlaceAfter(w, next, n);
      }
    } else {
      InBlockNext(w, pos, left, n);
      MoreLeft(w, left, n);
    }
  }

  lemma {:induction false} FirstGroup(w: Wav, pos: nat, left: nat, n: nat)
    requires WavOk(w) && 0 < left < WRAP && 0 < n <= 8
    ensures InBlock(w, pos, left, n) ==
            if Complete(w, pos) then Some(Place(pos + Unit(w), Minus(left, Unit(w)), 8 - n)) else None
    ensures Whole(w, left) ==> n <= 8 * Groups(w, left)
  {
    assert (n + 7) / 8 == 1;
  }

  lemma {:induction false} MoreLeft(w: Wav, left: nat, n: nat)
    requires WavOk(w) && 0 < left < WRAP && 8 < n && !(Whole(w, left) && 8 * Groups(w, left) < n)
    ensures Minus(left, Unit(w)) != 0
  {
  }

  lemma {:induction false} RefillPlace(w: Wav, s: State, n: nat)
    requires Valid(w, s) && 0 < n && s.cursor < w.total
    ensures var r := Refill(w, s);
            && r.state.left < WRAP
            && PlaceAfter(w, PlaceOf(s), n) == if r.ok then PlaceAfter(w, PlaceOf(r.state), n) else None
  {
    hide LoadHeader, LoadGroup, HeaderOk, Valid;
    ValidBounds(w, s);
    RefillKeeps(w, s);
    ValidBounds(w, Refill(w, s).state);
    if s.pending == [] {
      if s.left == 0 {
        HeaderLayout(w, s, n);
        if LoadHeader(w, s).ok {
          HeaderPlace(w, s);
        }
      } else {
        GroupLayout(w, s, n);
        PlaceGroup(w, s.pos, s.left, n);
      }
    }
  }

  lemma {:induction false} HeaderPlace(w: Wav, s: State)
    requires Valid(w, s) && s.pending == [] && s.left == 0 && LoadHeader(w, s).ok
    ensures PlaceOf(LoadHeader(w, s).state) == Place(s.pos + Unit(w), Minus(w.blockAlign, Unit(w)), 1)
  {
  }

  /** The layout says whether n frames are there, and where the decoder is after them. */
  lemma {:induction false} PlaceIs(w: Wav, s: State, n: nat)
    requires Valid(w, s) && s.cursor + n <= w.total
    ensures var r := Pulls(w, s, n);
            PlaceAfter(w, PlaceOf(s), n) == if |r.frames| == n then Some(PlaceOf(r.state)) else None
    decreases n
  {
    hide Refill, Valid;
    ValidBounds(w, s);
    PullsKeep(w, s, n);
    if n > 0 {
      RefillKeeps(w, s);
      PullKeeps(w, s);
      RefillPlace(w, s, n);
      var r := Refill(w, s);
      if r.ok {
        ValidBounds(w, r.state);
        PlaceCached(w, PlaceOf(r.state), n);
        PlaceIs(w, Pull(w, s).state, n - 1);
      }
    }
  }

  /** The first read takes the very last frame while its block has bytes left, and so has the data. */
  predicate EndsInBlock(w: Wav, s: State, n: nat)
    requires WavOk(w) && s.left < WRAP
  {
    0 < n && s.cursor + n == w.total &&
    var p := PlaceAfter(w, PlaceOf(s), n);
    p.Some? && p.value.count == 0 && p.value.left != 0 && p.value.pos < |w.data|
  }

  /**
   * Two reads leave the state of one longer read, except when the first meets a bad header that is not
   * the last thing in the data, or when it ends the stream inside a block: a longer read decodes one
   * group more than it hands out.
   */
  lemma {:induction false} SplitStateIff(w: Wav, s: State, n: nat, m: nat)
    requires Valid(w, s)
    ensures var first := Read(w, s, n);
            var bad := BadHeader(w, s, n);
            && Valid(w, first.state)
            && (Read(w, s, n + m).state == Read(w, first.state, m).state <==>
                !(0 < m && ((bad.Some? && AfterBad(w, bad.value) < |w.data|) || EndsInBlock(w, s, n))))
  {
    hide Pulls, Valid, LoadGroup, BadHeader, AfterBad, PlaceAfter;
    ValidBounds(w, s);
    ShortReadCause(w, s, n);
    ReadKeeps(w, s, n);
    PullsKeep(w, s, n);
    PullsAdd(w, s, n, m);
    if s.cursor + n <= w.total {
      PlaceIs(w, s, n);
    }
    if m == 0 {
      ReadNothing(w, Read(w, s, n).state);
    } else if |Pulls(w, s, n).frames| == n {
      if n == 0 {
        ReadNothing(w, s);
      } else {
        FullReadState(w, s, n, m);
        ValidBounds(w, Pulls(w, s, n).state);
      }
    } else {
      ShortReadState(w, s, n, m);
    }
  }

  lemma {:induction false} ReadNothing(w: Wav, s: State)
    requires Valid(w, s)
    ensures Read(w, s, 0) == Pulls(w, s, 0) == Frames([], s)
  {
  }

  lemma {:induction false} ShortReadState(w: Wav, s: State, n: nat, m: nat)
    requires Valid(w, s) && |Pulls(w, s, n).frames| < n && 0 < m
    ensures var first := Read(w, s, n);
            var bad := BadHeader(w, s, n);
            && Valid(w, first.state)
            && (Read(w, s, n + m).state == Read(w, first.state, m).state <==>
                !(bad.Some? && AfterBad(w, bad.value) < |w.data|))
  {
    hide Pulls, Valid, LoadGroup, BadHeader, AfterBad;
    ValidBounds(w, s);
    ShortReadCause(w, s, n);
    ReadKeeps(w, s, n);
    PullsKeep(w, s, n);
    PullsAdd(w, s, n, m);
    var first := Read(w, s, n);
    assert Read(w, s, n + m) == first;
    ValidBounds(w, first.state);
    match BadHeader(w, s, n) {
      case Some(h) =>
        AfterStop(w, first.state, h, m);
      case None =>
        if first.state.cursor == w.total {
          NothingAtTotal(w, first.state, m);
        } else {
          NothingWithoutData(w, first.state, m);
        }
    }
  }

  /** A mono block of one group whose stream ends after the header: a longer read leaves another state. */
  lemma {:induction false} EndStateDiffers()
    ensures var w := Wav(1, 8, 1, [0, 0, 0, 0, 0, 0, 0, 0]);
            var s := State(0, 0, 0, [Voice(0, 0)], []);
            && Valid(w, s) && Valid(w, Read(w, s, 1).state)
            && Read(w, s, 2).frames == Read(w, s, 1).frames + Read(w, Read(w, s, 1).state, 1).frames
            && Read(w, s, 2).state != Read(w, Read(w, s, 1).state, 1).state
  {
    hide Read, LoadHeader, LoadGroup;
    var w := Wav(1, 8, 1, [0, 0, 0, 0, 0, 0, 0, 0]);
    var s := State(0, 0, 0, [Voice(0, 0)], []);
    assert HeaderVoice(w, 0, 0).index == 0;
    assert GoodHeader(w, 0);
    assert PlaceAfter(w, Place(4, 4, 1), 1) == Some(Place(4, 4, 0));
    assert PlaceAfter(w, PlaceOf(s), 1) == Some(Place(4, 4, 0));
    assert EndsInBlock(w, s, 1);
    SplitStateIff(w, s, 1, 1);
    SplitSamplesIff(w, s, 1, 1);
    assert BadFrom(w, 0, 1) == None;
  }
}
