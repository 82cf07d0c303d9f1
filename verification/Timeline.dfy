/**
 * The stream that a queue of packets stands for, and the proof that the depacketizer plays
 * exactly this stream when the packets are queued up front, for any division into frames.
 *
 * Positions here are unbounded; on the wire only their low 32 bits are visible.
 */
module Timeline {
  import opened Arith
  import opened Options
  import opened StreamTime
  import opened DepacketizerSpec

  /** A packet with its unbounded stream position. */
  datatype Ext = Ext(start: int, samples: seq<Tick>, cts: int) {
    function End(): int { start + |samples| }

    predicate Covers(p: int) { start <= p < End() }

    function OnWire(): Packet { Packet(Stamp(start), samples, cts) }
  }

  function Wire(q: seq<Ext>): (s: Script)
    ensures |s| == |q|
    ensures forall i :: 0 <= i < |q| ==> s[i] == Some(q[i].OnWire())
  {
    seq(|q|, i requires 0 <= i < |q| => Some(q[i].OnWire()))
  }

  function Max(a: int, b: int): int { if a < b then b else a }

  /**
   * The cell played at position p >= pos when the stream stands at pos and q is still to come:
   * the head of the queue owns everything up to its end.
   */
  function Emit(q: seq<Ext>, pos: int, p: int): Cell {
    if q == [] then Gap
    else if p < Max(pos, q[0].End()) then
      if q[0].Covers(p) then Audio(q[0].samples[p - q[0].start]) else Gap
    else Emit(q[1..], Max(pos, q[0].End()), p)
  }

  /** Every packet lies within half the timestamp range of the position reached before it. */
  predicate InRange(q: seq<Ext>, pos: int) {
    q == [] ||
    (&& -HALF < q[0].start - pos < HALF && -HALF < q[0].End() - pos < HALF
     && InRange(q[1..], Max(pos, q[0].End())))
  }

  /** What is left of the held packet, if any, followed by the queue. */
  function Pending(held: Option<Ext>, q: seq<Ext>): seq<Ext> {
    if held.Some? then [held.value] + q else q
  }

  /** The depacketizer stands at pos, holds the given rest of a packet, and q is queued. */
  ghost predicate At(st: State, pos: int, held: Option<Ext>, q: seq<Ext>) {
    && st.started && st.streamTs == Stamp(pos) && st.script == Wire(q)
    && InRange(Pending(held, q), pos)
    && match held
       case None => st.held.None?
       case Some(h) => st.held == Some(Decoder(Stamp(h.start), h.samples)) && pos <= h.start
  }

  lemma {:induction false} LateHeadIsDropped(q: seq<Ext>, pos: int)
    requires q != [] && InRange(q, pos)
    ensures Lt(Stamp(pos), Advance(q[0].OnWire().ts, |q[0].samples|)) <==> pos < q[0].End()
    ensures Lt(q[0].OnWire().ts, Stamp(pos)) <==> q[0].start < pos
  {
    StampAdvance(q[0].start, |q[0].samples|);
    NearDiff(pos, q[0].End());
    NearDiff(q[0].start, pos);
  }

  /** Fetching drops exactly the packets that end at or before the position. */
  lemma {:induction false} FetchSkipsLate(q: seq<Ext>, pos: int) returns (k: nat)
    requires InRange(q, pos)
    ensures k <= |q|
    ensures InRange(q[k..], pos)
    ensures forall p :: p >= pos ==> Emit(q, pos, p) == Emit(q[k..], pos, p)
    ensures var f := FetchPacket(Wire(q), Stamp(pos), true);
            if k == |q| then f.packet.None? && f.script == []
            else f.packet == Some(q[k].OnWire()) && f.script == Wire(q[k + 1..]) && pos < q[k].End()
  {
    if q == [] {
      return 0;
    }
    LateHeadIsDropped(q, pos);
    assert Wire(q)[1..] == Wire(q[1..]);
    if pos < q[0].End() {
      k := 0;
      assert q[0..] == q;
    } else {
      var j := FetchSkipsLate(q[1..], pos);
      k := j + 1;
      assert q[1..][j..] == q[k..];
      if j < |q[1..]| {
        assert q[1..][j + 1..] == q[k + 1..];
      }
    }
  }

  /** From position pos on, both queues stand for the same stream. */
  ghost predicate SameFrom(q: seq<Ext>, pos: int, q': seq<Ext>, pos': int) {
    forall p :: p >= pos' ==> Emit(q', pos', p) == Emit(q, pos, p)
  }

  lemma {:induction false} CutHead(h: Ext, q: seq<Ext>, pos: int, n: nat)
    requires n <= |h.samples| && h.start + n == pos
    requires InRange([h] + q, pos)
    ensures var h' := Ext(pos, h.samples[n..], h.cts);
            InRange([h'] + q, pos) && SameFrom([h] + q, pos, [h'] + q, pos)
  {
    var h' := Ext(pos, h.samples[n..], h.cts);
    assert h'.End() == h.End();
    assert ([h] + q)[1..] == q && ([h'] + q)[1..] == q;
    forall p | p >= pos
      ensures Emit([h'] + q, pos, p) == Emit([h] + q, pos, p)
    {
      if h.Covers(p) {
        assert h.samples[n..][p - pos] == h.samples[p - h.start];
      }
    }
  }

  /** Accepting a packet that is not late leaves the stream to be played as it is. */
  lemma {:induction false} AcceptTimeline(st: State, pos: int, e: Ext, q: seq<Ext>, tickNs: nat) returns (h: Ext)
    requires st.started && st.streamTs == Stamp(pos) && st.script == Wire(q)
    requires InRange([e] + q, pos) && pos < e.End()
    ensures var a := AcceptPacket(st, e.OnWire(), tickNs);
            && a.Some? && At(a.value, pos, Some(h), q)
            && SameFrom([e] + q, pos, [h] + q, pos)
  {
    hide Ns, Emit, Advance;
    LateHeadIsDropped([e] + q, pos);
    if e.start < pos {
      var n := pos - e.start;
      NearDiff(pos, e.start);
      StampAdvance(e.start, n);
      CutHead(e, q, pos, n);
      h := Ext(pos, e.samples[n..], e.cts);
    } else {
      h := e;
    }
  }

  /** update_packet_ leaves the stream to be played as it is. */
  lemma {:induction false} UpdateTimeline(st: State, pos: int, held: Option<Ext>, q: seq<Ext>, info: FrameInfo, tickNs: nat)
    returns (held': Option<Ext>, q': seq<Ext>)
    requires At(st, pos, held, q)
    ensures var u := Update(st, info, tickNs);
            && u.Updated? && At(u.st, pos, held', q')
            && SameFrom(Pending(held, q), pos, Pending(held', q'), pos)
            && (held'.None? ==> q' == [])
  {
    hide AcceptPacket, Emit, Stamp, InRange, FetchPacket;
    if held.Some? {
      return held, q;
    }
    var k := FetchSkipsLate(q, pos);
    if k == |q| {
      held', q' := None, [];
    } else {
      q' := q[k + 1..];
      assert q[k..] == [q[k]] + q';
      var h := AcceptTimeline(st.(script := Wire(q')), pos, q[k], q', tickNs);
      held' := Some(h);
    }
  }

  /** Cells of a piece are the stream from pos on, and what remains is the stream behind them. */
  ghost predicate Plays(q: seq<Ext>, pos: int, cells: seq<Cell>, q': seq<Ext>) {
    && (forall i :: 0 <= i < |cells| ==> cells[i] == Emit(q, pos, pos + i))
    && SameFrom(q, pos, q', pos + |cells|)
  }

  lemma {:induction false} PlaysAppend(q: seq<Ext>, pos: int, a: seq<Cell>, q1: seq<Ext>, b: seq<Cell>, q2: seq<Ext>)
    requires Plays(q, pos, a, q1) && Plays(q1, pos + |a|, b, q2)
    ensures Plays(q, pos, a + b, q2)
  {
    hide Emit;
    forall i | 0 <= i < |a + b|
      ensures (a + b)[i] == Emit(q, pos, pos + i)
    {
      if i >= |a| {
        var j := i - |a|;
        assert (a + b)[i] == b[j] == Emit(q1, pos + |a|, pos + |a| + j);
        assert pos + |a| + j == pos + i;
      }
    }
  }

  lemma {:induction false} PlaysFrom(q: seq<Ext>, q1: seq<Ext>, pos: int, cells: seq<Cell>, q2: seq<Ext>)
    requires SameFrom(q, pos, q1, pos) && Plays(q1, pos, cells, q2)
    ensures Plays(q, pos, cells, q2)
  {
    hide Emit;
  }

  lemma {:induction false} PlaysThen(q: seq<Ext>, pos: int, cells: seq<Cell>, q1: seq<Ext>, q2: seq<Ext>)
    requires Plays(q, pos, cells, q1) && SameFrom(q1, pos + |cells|, q2, pos + |cells|)
    ensures Plays(q, pos, cells, q2)
  {
    hide Emit;
  }

  lemma {:induction false} GapTimeline(st: State, pos: int, h: Ext, q: seq<Ext>, room: nat, info: FrameInfo, tickNs: nat)
    requires At(st, pos, Some(h), q)
    ensures var c := FillGap(st, room, info, tickNs);
            && c.Chunk? && |c.cells| <= room
            && At(c.st, pos + |c.cells|, Some(h), q)
            && Plays([h] + q, pos, c.cells, [h] + q)
            && (|c.cells| < room ==> pos + |c.cells| == h.start)
  {
    hide Ns;
    NearDiff(pos, h.start);
    NearDiff(h.start, pos);
    var n := Min(h.start - pos, room);
    StampAdvance(pos, n);
    assert ([h] + q)[1..] == q;
  }

  /** The head of the queue plays its samples, and its rest stays at the head. */
  lemma {:induction false} HeadPlays(h: Ext, q: seq<Ext>, n: nat)
    requires InRange([h] + q, h.start) && n <= |h.samples|
    ensures var h' := Ext(h.start + n, h.samples[n..], h.cts);
            InRange([h'] + q, h.start + n) && Plays([h] + q, h.start, Audios(h.samples[..n]), [h'] + q)
  {
    var h' := Ext(h.start + n, h.samples[n..], h.cts);
    assert h'.End() == h.End();
    assert ([h] + q)[1..] == q && ([h'] + q)[1..] == q;
    forall p | p >= h.start + n
      ensures Emit([h'] + q, h.start + n, p) == Emit([h] + q, h.start, p)
    {
      if h.Covers(p) {
        assert h.samples[n..][p - h.start - n] == h.samples[p - h.start];
      }
    }
  }

  lemma {:induction false} EmptyHead(h: Ext, q: seq<Ext>)
    requires h.samples == [] && InRange([h] + q, h.start)
    ensures InRange(q, h.start) && SameFrom([h] + q, h.start, q, h.start)
  {
    assert ([h] + q)[1..] == q;
  }

  lemma {:induction false} PacketTimeline(st: State, pos: int, h: Ext, q: seq<Ext>, room: nat, info: FrameInfo, tickNs: nat)
    returns (held': Option<Ext>)
    requires At(st, pos, Some(h), q) && h.start == pos
    ensures var c := ReadPacket(st, room, info, tickNs);
            && c.Chunk? && |c.cells| <= room
            && At(c.st, pos + |c.cells|, held', q)
            && Plays([h] + q, pos, c.cells, Pending(held', q))
  {
    hide Ns, InRange, Stamp, Plays, SameFrom;
    var n := Min(room, |h.samples|);
    StampAdvance(pos, n);
    HeadPlays(h, q, n);
    var h' := Ext(pos + n, h.samples[n..], h.cts);
    if n < room {
      held' := None;
      EmptyHead(h', q);
      PlaysThen([h] + q, pos, Audios(h.samples[..n]), [h'] + q, q);
    } else {
      held' := Some(h');
    }
  }

  lemma {:induction false} MissingTimeline(st: State, pos: int, room: nat, tickNs: nat)
    requires At(st, pos, None, [])
    ensures At(SkipMissing(AdvanceCts(st, room, tickNs), room), pos + room, None, [])
    ensures Plays([], pos, Gaps(room), [])
  {
    hide Ns;
    StampAdvance(pos, room);
  }

  /** One round of the frame loop plays the next part of the stream. */
  lemma {:induction false} SamplesTimeline(st: State, pos: int, held: Option<Ext>, q: seq<Ext>, room: nat, info: FrameInfo, tickNs: nat)
    returns (held': Option<Ext>, q': seq<Ext>)
    requires room > 0 && At(st, pos, held, q)
    ensures var c := ReadSamples(st, room, info, tickNs);
            && c.Chunk? && |c.cells| <= room
            && At(c.st, pos + |c.cells|, held', q')
            && Plays(Pending(held, q), pos, c.cells, Pending(held', q'))
  {
    hide Update, FillGap, ReadPacket, SkipMissing, AdvanceCts, MarkCts, At, Plays, SameFrom;
    held', q' := UpdateTimeline(st, pos, held, q, info, tickNs);
    var u := Update(st, info, tickNs);
    HeldMatches(u.st, pos, held', q');
    var mid := Pending(held', q');
    if held'.Some? {
      var h := held'.value;
      GapTimeline(u.st, pos, h, q', room, u.info, tickNs);
      var g := FillGap(u.st, room, u.info, tickNs);
      if |g.cells| < room {
        HeldMatches(g.st, pos + |g.cells|, held', q');
        held' := PacketTimeline(g.st, pos + |g.cells|, h, q', room - |g.cells|, g.info, tickNs);
        var r := ReadPacket(g.st, room - |g.cells|, g.info, tickNs);
        PlaysAppend(mid, pos, g.cells, mid, r.cells, Pending(held', q'));
      }
    } else {
      MissingTimeline(u.st, pos, room, tickNs);
    }
    PlaysFrom(Pending(held, q), mid, pos, ReadSamples(st, room, info, tickNs).cells, Pending(held', q'));
  }

  lemma {:induction false} HeldMatches(st: State, pos: int, held: Option<Ext>, q: seq<Ext>)
    requires At(st, pos, held, q)
    ensures st.held.Some? <==> held.Some?
  {
  }

  /**
   * With the packets queued up front, any frame of a started stream is the next part of the
   * stream the queue stands for: content and position do not depend on the frame size.
   */
  lemma {:induction false} FrameTimeline(
    st: State, pos: int, held: Option<Ext>, q: seq<Ext>, room: nat, info: FrameInfo, tickNs: nat)
    returns (held': Option<Ext>, q': seq<Ext>)
    requires At(st, pos, held, q)
    ensures var c := ReadFrame(st, room, info, tickNs);
            && c.Chunk? && |c.cells| == room
            && At(c.st, pos + room, held', q')
            && Plays(Pending(held, q), pos, c.cells, Pending(held', q'))
    decreases room, |st.script|, if st.held.Some? then 1 else 0
  {
    hide ReadSamples, Emit, At;
    if room == 0 {
      return held, q;
    }
    held', q' := SamplesTimeline(st, pos, held, q, room, info, tickNs);
    var a := ReadSamples(st, room, info, tickNs);
    ReadProgress(st, room, info, tickNs);
    var left := room - |a.cells|;
    var mid := Pending(held', q');
    held', q' := FrameTimeline(a.st, pos + |a.cells|, held', q', left, a.info, tickNs);
    PlaysAppend(Pending(held, q), pos, a.cells, mid, ReadFrame(a.st, left, a.info, tickNs).cells, Pending(held', q'));
  }

  // ---------------------------------------------------------------- whole runs

  datatype Played = Broken | Played(st: State, cells: seq<Cell>)

  /** Reading frame after frame: the concatenated output. */
  function PlayAll(st: State, sizes: seq<nat>, tickNs: nat): Played
    decreases |sizes|
  {
    if sizes == [] then Played(st, [])
    else
      match ReadFrame(st, sizes[0], NO_INFO, tickNs)
      case Panic => Broken
      case Chunk(st1, cells, _) =>
        match PlayAll(st1, sizes[1..], tickNs)
        case Broken => Broken
        case Played(st2, more) => Played(st2, cells + more)
  }

  function Total(sizes: seq<nat>): nat {
    if sizes == [] then 0 else sizes[0] + Total(sizes[1..])
  }

  function Origin0(q: seq<Ext>): int { if q == [] then 0 else q[0].start }

  /** n cells of the stream from position p on. */
  function Cells(q: seq<Ext>, pos: int, n: nat): seq<Cell> {
    seq(n, i requires 0 <= i < n => Emit(q, pos, pos + i))
  }

  /** A state that has not started yet behaves like the state right after its first fetch. */
  lemma {:induction false} FetchFirst(st: State, room: nat, info: FrameInfo, tickNs: nat)
    requires room > 0
    requires var u := Update(st, info, tickNs); u.Updated? && u.st.held.Some?
    ensures var u := Update(st, info, tickNs);
            ReadFrame(st, room, info, tickNs) == ReadFrame(u.st, room, u.info, tickNs)
  {
    hide FillGap, ReadPacket, FetchPacket, AcceptPacket;
    var u := Update(st, info, tickNs);
    assert Update(u.st, u.info, tickNs) == u;
    assert ReadSamples(st, room, info, tickNs) == ReadSamples(u.st, room, u.info, tickNs);
  }

  /** The first packet is taken at its own position, whatever that is. */
  lemma {:induction false} FirstFetch(q: seq<Ext>, z: State, info: FrameInfo, tickNs: nat)
    requires q != [] && InRange(q, q[0].start)
    requires !z.started && z.held.None? && z.script == Wire(q)
    ensures var u := Update(z, info, tickNs);
            u.Updated? && At(u.st, q[0].start, Some(q[0]), q[1..])
  {
    hide Ns;
    assert Wire(q)[1..] == Wire(q[1..]);
    assert [q[0]] + q[1..] == q;
    NearDiff(q[0].start, q[0].start);
  }

  lemma {:induction false} StartedRun(
    st: State, pos: int, held: Option<Ext>, q: seq<Ext>, sizes: seq<nat>, tickNs: nat)
    requires At(st, pos, held, q)
    ensures var r := PlayAll(st, sizes, tickNs);
            r.Played? && r.cells == Cells(Pending(held, q), pos, Total(sizes))
    decreases |sizes|
  {
    hide ReadFrame, Emit, At;
    if sizes != [] {
      var held', q' := FrameTimeline(st, pos, held, q, sizes[0], NO_INFO, tickNs);
      var c := ReadFrame(st, sizes[0], NO_INFO, tickNs);
      StartedRun(c.st, pos + sizes[0], held', q', sizes[1..], tickNs);
      var n, m := sizes[0], Total(sizes[1..]);
      assert Cells(Pending(held, q), pos, n + m)
          == c.cells + Cells(Pending(held', q'), pos + n, m);
    }
  }

  /** Nothing queued: silence, and the stream does not start. */
  lemma {:induction false} SilentRun(st: State, sizes: seq<nat>, tickNs: nat)
    requires !st.started && st.held.None? && st.script == []
    ensures var r := PlayAll(st, sizes, tickNs);
            r.Played? && r.cells == Gaps(Total(sizes))
    decreases |sizes|
  {
    hide ReadFrame;
    if sizes != [] {
      SilentFrame(st, sizes[0], NO_INFO, tickNs);
      SilentRun(ReadFrame(st, sizes[0], NO_INFO, tickNs).st, sizes[1..], tickNs);
      assert Gaps(sizes[0]) + Gaps(Total(sizes[1..])) == Gaps(Total(sizes));
    }
  }

  lemma {:induction false} SilentFrame(st: State, room: nat, info: FrameInfo, tickNs: nat)
    requires !st.started && st.held.None? && st.script == []
    ensures var c := ReadFrame(st, room, info, tickNs);
            && c.Chunk? && c.cells == Gaps(room)
            && !c.st.started && c.st.held.None? && c.st.script == []
  {
    hide Ns, FillGap, ReadPacket, AcceptPacket;
    if room > 0 {
      var c := ReadSamples(st, room, info, tickNs);
      assert c.Chunk? && c.cells == Gaps(room);
      assert ReadFrame(c.st, room - |c.cells|, c.info, tickNs) == Chunk(c.st, [], c.info);
      assert Gaps(room) + [] == Gaps(room);
    }
  }

  /**
   * With all packets queued up front the concatenated output is the stream of the queue,
   * starting at the first packet, for every division into frames.
   */
  lemma {:induction false} FrameSizesDoNotMatter(q: seq<Ext>, st: State, sizes: seq<nat>, tickNs: nat)
    requires InRange(q, Origin0(q))
    requires !st.started && st.held.None? && st.script == Wire(q)
    ensures var r := PlayAll(st, sizes, tickNs);
            r.Played? && r.cells == Cells(q, Origin0(q), Total(sizes))
    decreases |sizes|
  {
    hide ReadSamples, Ns;
    if q == [] {
      SilentRun(st, sizes, tickNs);
      assert Gaps(Total(sizes)) == Cells(q, 0, Total(sizes));
    } else if sizes != [] {
      if sizes[0] == 0 {
        FrameSizesDoNotMatter(q, st, sizes[1..], tickNs);
        assert PlayAll(st, sizes, tickNs).cells == [] + PlayAll(st, sizes[1..], tickNs).cells;
      } else {
        FirstFetch(q, st, NO_INFO, tickNs);
        StartingRun(q, st, sizes, tickNs);
      }
    }
  }

  lemma {:induction false} StartingRun(q: seq<Ext>, st: State, sizes: seq<nat>, tickNs: nat)
    requires sizes != [] && sizes[0] > 0 && q != []
    requires var u := Update(st, NO_INFO, tickNs);
             u.Updated? && At(u.st, q[0].start, Some(q[0]), q[1..])
    ensures var r := PlayAll(st, sizes, tickNs);
            r.Played? && r.cells == Cells(q, q[0].start, Total(sizes))
  {
    hide ReadFrame, Emit, At;
    var pos := q[0].start;
    var u := Update(st, NO_INFO, tickNs);
    HeldMatches(u.st, pos, Some(q[0]), q[1..]);
    FetchFirst(st, sizes[0], NO_INFO, tickNs);
    var held', q' := FrameTimeline(u.st, pos, Some(q[0]), q[1..], sizes[0], u.info, tickNs);
    assert Pending(Some(q[0]), q[1..]) == q;
    var c := ReadFrame(u.st, sizes[0], u.info, tickNs);
    StartedRun(c.st, pos + sizes[0], held', q', sizes[1..], tickNs);
    assert Cells(q, pos, sizes[0] + Total(sizes[1..]))
        == c.cells + Cells(Pending(held', q'), pos + sizes[0], Total(sizes[1..]));
  }
}
