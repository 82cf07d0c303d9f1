/**
 * With all packets queued up front, how the output is divided into frames does not matter, for any
 * packets and any timestamps: cells, final state and panics are those of one large frame.
 */
module FrameDivision {
  import opened Arith
  import opened Options
  import opened StreamTime
  import opened DepacketizerSpec
  import opened DepacketizerSafety
  import opened Timeline

  /** The same panic, or the same cells and state; the information about the frame may differ. */
  predicate Alike(a: Chunk, b: Chunk) {
    if a.Panic? then b.Panic? else b.Chunk? && a.st == b.st && a.cells == b.cells
  }

  /** The reader never answers "no data" before its last packet. */
  ghost predicate AllQueued(script: Script) { forall a :: a in script ==> a.Some? }

  // ---------------------------------------------------------------- the information does not matter

  lemma {:induction false} GapHolds(st: State, room: nat, info: FrameInfo, tickNs: nat)
    requires st.held.Some?
    ensures var g := FillGap(st, room, info, tickNs);
            g.Chunk? ==> g.st.held == st.held
  {
    hide MarkCts;
  }

  lemma {:induction false} UpdateAlike(st: State, info: FrameInfo, info': FrameInfo, tickNs: nat)
    ensures var u, v := Update(st, info, tickNs), Update(st, info', tickNs);
            if u.UpdatePanic? then v.UpdatePanic? else v.Updated? && u.st == v.st
  {
    hide FetchPacket, AcceptPacket;
  }

  lemma {:induction false} GapAlike(st: State, room: nat, info: FrameInfo, info': FrameInfo, tickNs: nat)
    requires st.held.Some?
    ensures Alike(FillGap(st, room, info, tickNs), FillGap(st, room, info', tickNs))
  {
    hide MarkCts;
  }

  lemma {:induction false} PacketAlike(st: State, room: nat, info: FrameInfo, info': FrameInfo, tickNs: nat)
    requires st.held.Some?
    ensures Alike(ReadPacket(st, room, info, tickNs), ReadPacket(st, room, info', tickNs))
  {
    hide MarkCts, AdvanceCts;
  }

  lemma {:induction false} SamplesAlike(st: State, room: nat, info: FrameInfo, info': FrameInfo, tickNs: nat)
    requires room > 0
    ensures Alike(ReadSamples(st, room, info, tickNs), ReadSamples(st, room, info', tickNs))
  {
    hide Update, FillGap, ReadPacket, MarkCts, AdvanceCts, SkipMissing;
    UpdateAlike(st, info, info', tickNs);
    var u, v := Update(st, info, tickNs), Update(st, info', tickNs);
    if u.Updated? && u.st.held.Some? {
      GapAlike(u.st, room, u.info, v.info, tickNs);
      var g, h := FillGap(u.st, room, u.info, tickNs), FillGap(u.st, room, v.info, tickNs);
      if g.Chunk? && |g.cells| < room {
        GapHolds(u.st, room, u.info, tickNs);
        PacketAlike(g.st, room - |g.cells|, g.info, h.info, tickNs);
      }
    }
  }

  lemma {:induction false} FrameAlike(st: State, room: nat, info: FrameInfo, info': FrameInfo, tickNs: nat)
    ensures Alike(ReadFrame(st, room, info, tickNs), ReadFrame(st, room, info', tickNs))
    decreases room, |st.script|, if st.held.Some? then 1 else 0
  {
    hide ReadSamples;
    if room > 0 {
      SamplesAlike(st, room, info, info', tickNs);
      var a, b := ReadSamples(st, room, info, tickNs), ReadSamples(st, room, info', tickNs);
      if a.Chunk? {
        ReadProgress(st, room, info, tickNs);
        FrameAlike(a.st, room - |a.cells|, a.info, b.info, tickNs);
      }
    }
  }

  // ---------------------------------------------------------------- one round in a larger room

  /** A round in room a, compared with the same round in room a + b. */
  ghost predicate RoundGrows(st: State, a: nat, b: nat, info: FrameInfo, tickNs: nat)
    requires a > 0 && b > 0
  {
    var x, y := ReadSamples(st, a, info, tickNs), ReadSamples(st, a + b, info, tickNs);
    if x.Panic? || |x.cells| < a then Alike(x, y)
    else Alike(y, Prepend(x.cells, ReadSamples(x.st, b, info, tickNs)))
  }

  /** A frame that begins at the held packet reads from it at once. */
  lemma {:induction false} AtPacket(st: State, room: nat, info: FrameInfo, tickNs: nat)
    requires st.held.Some? && st.streamTs == st.held.value.pos && room > 0
    ensures Alike(ReadSamples(st, room, info, tickNs), ReadPacket(st, room, info, tickNs))
  {
    hide AdvanceCts, MarkCts;
    var c := ReadPacket(st, room, info, tickNs);
    assert [] + c.cells == c.cells;
  }

  lemma {:induction false} GapGrows(st: State, a: nat, b: nat, info: FrameInfo, tickNs: nat)
    requires Sane(st) && st.held.Some?
    ensures var g, h := FillGap(st, a, info, tickNs), FillGap(st, a + b, info, tickNs);
            && g.Chunk? && h.Chunk? && |g.cells| <= a && g.st.held == st.held && g.st.script == st.script && Sane(g.st)
            && (|g.cells| < a ==> Alike(g, h) && g.st.streamTs == st.held.value.pos)
            && (|g.cells| == a ==> Alike(h, Prepend(g.cells, FillGap(g.st, b, info, tickNs))))
  {
    hide Ns;
    GapKeeps(st, a, info, tickNs);
    var ts, pos := st.streamTs, st.held.value.pos;
    var ahead := (pos - ts) % WRAP;
    DiffAhead(pos, ts);
    var g := FillGap(st, a, info, tickNs);
    if |g.cells| == a {
      GapDistance(ts, pos, a);
      DiffAhead(pos, g.st.streamTs);
      AdvanceTwice(ts, a, Min(ahead - a, b));
      AdvanceTwice(st.missingSamples, a, Min(ahead - a, b));
      assert Gaps(a) + Gaps(Min(ahead - a, b)) == Gaps(a + Min(ahead - a, b));
    }
  }

  lemma {:induction false} PacketGrows(st: State, a: nat, b: nat, info: FrameInfo, tickNs: nat)
    requires st.held.Some? && st.streamTs == st.held.value.pos
    ensures var g, h := ReadPacket(st, a, info, tickNs), ReadPacket(st, a + b, info, tickNs);
            && g.Chunk? && h.Chunk? && |g.cells| <= a
            && (|g.cells| < a ==> Alike(g, h))
            && (|g.cells| == a ==>
                  && g.st.held.Some? && g.st.streamTs == g.st.held.value.pos
                  && Alike(h, Prepend(g.cells, ReadPacket(g.st, b, info, tickNs))))
  {
    hide ReadPacket, Advance;
    var rest := st.held.value.rest;
    PacketShape(st, a, info, tickNs);
    PacketShape(st, a + b, info, tickNs);
    if |rest| < a {
      PacketUnfilled(st, a, b, info, tickNs);
    } else {
      var g := ReadPacket(st, a, info, tickNs);
      PacketParts(st, a, b, info, tickNs);
      PacketShape(g.st, b, info, tickNs);
      var n := Min(b, |rest| - a);
      assert Audios(rest[..a]) + Audios(rest[a..][..n]) == Audios(rest[..a + n]);
    }
  }

  /** What of the packet is played, and what stays. */
  lemma {:induction false} PacketShape(st: State, room: nat, info: FrameInfo, tickNs: nat)
    requires st.held.Some?
    ensures var c, d := ReadPacket(st, room, info, tickNs), st.held.value;
            && c.Chunk? && c.cells == Audios(d.rest[..Min(room, |d.rest|)])
            && (room <= |d.rest| ==>
                  && c.st.held == Some(Decoder(Advance(d.pos, room), d.rest[room..]))
                  && c.st.streamTs == Advance(st.streamTs, room))
  {
    hide Ns, MarkCts, Advance;
  }

  lemma {:induction false} PacketUnfilled(st: State, a: nat, b: nat, info: FrameInfo, tickNs: nat)
    requires st.held.Some? && |st.held.value.rest| < a
    ensures Alike(ReadPacket(st, a, info, tickNs), ReadPacket(st, a + b, info, tickNs))
  {
    hide Ns, MarkCts, AdvanceCts, Advance;
  }

  /** Reading a ticks and then b more leaves the packet as reading a + b at once. */
  lemma {:induction false} PacketParts(st: State, a: nat, b: nat, info: FrameInfo, tickNs: nat)
    requires st.held.Some? && a <= |st.held.value.rest|
    ensures var g := ReadPacket(st, a, info, tickNs);
            g.st.held.Some? && ReadPacket(st, a + b, info, tickNs).st == ReadPacket(g.st, b, info, tickNs).st
  {
    hide Ns, MarkCts, Advance;
    var d := st.held.value;
    var n := Min(b, |d.rest| - a);
    AdvanceTwice(d.pos, a, n);
    AdvanceTwice(st.streamTs, a, n);
    AdvanceTwice(st.packetSamples, a, n);
    NsAdds(a, n, tickNs);
    assert d.rest[a..][n..] == d.rest[a + n..];
  }

  lemma {:induction false} NsAdds(a: nat, b: nat, tickNs: nat)
    ensures Ns(a + b, tickNs) == Ns(a, tickNs) + Ns(b, tickNs)
  {
    assert (a + b) * tickNs == a * tickNs + b * tickNs;
  }

  lemma {:induction false} MissingGrows(st: State, a: nat, b: nat, tickNs: nat)
    ensures SkipMissing(AdvanceCts(st, a + b, tickNs), a + b)
         == SkipMissing(AdvanceCts(SkipMissing(AdvanceCts(st, a, tickNs), a), b, tickNs), b)
    ensures Gaps(a + b) == Gaps(a) + Gaps(b)
  {
    hide Ns;
    AdvanceTwice(st.streamTs, a, b);
    AdvanceTwice(st.missingSamples, a, b);
    AdvanceTwice(st.zeroSamples, a, b);
    NsAdds(a, b, tickNs);
  }

  // ---------------------------------------------------------------- a round

  /**
   * With a held packet, a round that does not fill its room is the same in any larger room, and
   * one that fills it is the first part of the round in the larger room.
   */
  lemma {:induction false} HeldRoundGrows(st: State, a: nat, b: nat, info: FrameInfo, tickNs: nat)
    requires Sane(st) && st.held.Some? && a > 0 && b > 0
    ensures RoundGrows(st, a, b, info, tickNs)
  {
    hide FillGap, ReadPacket, Sane;
    GapGrows(st, a, b, info, tickNs);
    var g, h := FillGap(st, a, info, tickNs), FillGap(st, a + b, info, tickNs);
    if |g.cells| < a {
      var m := a - |g.cells|;
      PacketGrows(g.st, m, b, g.info, tickNs);
      PacketAlike(g.st, m + b, g.info, h.info, tickNs);
      var r := ReadPacket(g.st, m, g.info, tickNs);
      if |r.cells| == m {
        AtPacket(r.st, b, info, tickNs);
        PacketAlike(r.st, b, g.info, info, tickNs);
        PrependTwice(g.cells, r.cells, ReadPacket(r.st, b, info, tickNs));
      }
    } else {
      var k := FillGap(g.st, b, info, tickNs);
      GapHolds(g.st, b, info, tickNs);
      if |k.cells| < b {
        PacketAlike(k.st, b - |k.cells|, h.info, k.info, tickNs);
        PrependTwice(g.cells, k.cells, ReadPacket(k.st, b - |k.cells|, k.info, tickNs));
      }
    }
  }

  /** Fetching comes before everything else, and does not depend on the room. */
  lemma {:induction false} UpdateFirst(st: State, room: nat, info: FrameInfo, tickNs: nat)
    requires room > 0 && Update(st, info, tickNs).Updated? && Update(st, info, tickNs).st.held.Some?
    ensures Alike(ReadSamples(st, room, info, tickNs), ReadSamples(Update(st, info, tickNs).st, room, info, tickNs))
  {
    hide FillGap, ReadPacket, FetchPacket, AcceptPacket;
    var u := Update(st, info, tickNs);
    assert Update(u.st, u.info, tickNs) == u;
    assert ReadSamples(st, room, info, tickNs) == ReadSamples(u.st, room, u.info, tickNs);
    SamplesAlike(u.st, room, u.info, info, tickNs);
  }

  /** When every answer is a packet, finding none means that all have been read. */
  lemma {:induction false} FetchedAll(script: Script, streamTs: Timestamp, started: bool)
    requires AllQueued(script)
    ensures var f := FetchPacket(script, streamTs, started);
            AllQueued(f.script) && (f.packet.None? ==> f.script == [])
  {
    if script != [] {
      assert script[0] in script;
      FetchedAll(script[1..], streamTs, started);
    }
  }

  lemma {:induction false} DryRoundGrows(st: State, a: nat, b: nat, info: FrameInfo, tickNs: nat)
    requires AllQueued(st.script) && a > 0 && b > 0
    requires var u := Update(st, info, tickNs); u.Updated? && u.st.held.None?
    ensures RoundGrows(st, a, b, info, tickNs)
  {
    hide AdvanceCts, MarkCts, SkipMissing;
    FetchedAll(st.script, st.streamTs, st.started);
    var u := Update(st, info, tickNs).st;
    MissingGrows(u, a, b, tickNs);
    DryStays(u, a, tickNs);
    var x := ReadSamples(st, a, info, tickNs);
    assert x.st.held.None? && x.st.script == [];
    assert x.st.(script := []) == x.st;
  }

  lemma {:induction false} DryStays(st: State, n: nat, tickNs: nat)
    ensures var m := SkipMissing(AdvanceCts(st, n, tickNs), n); m.script == st.script && m.held == st.held
  {
    hide Ns;
  }

  lemma {:induction false} SamplesGrow(st: State, a: nat, b: nat, info: FrameInfo, tickNs: nat)
    requires Sane(st) && AllQueued(st.script) && a > 0 && b > 0
    ensures RoundGrows(st, a, b, info, tickNs)
  {
    hide Sane, HalfRangePacket, Update, ReadSamples;
    UpdatePanicsIff(st, info, tickNs);
    SamplesPanicIff(st, a, info, tickNs);
    SamplesPanicIff(st, a + b, info, tickNs);
    if !HalfRangePacket(st) {
      var u := Update(st, info, tickNs);
      if u.st.held.Some? {
        UpdateFirst(st, a, info, tickNs);
        UpdateFirst(st, a + b, info, tickNs);
        HeldRoundGrows(u.st, a, b, info, tickNs);
      } else {
        DryRoundGrows(st, a, b, info, tickNs);
      }
    }
  }

  // ---------------------------------------------------------------- frames

  /** A part and then a frame of b cells. */
  function AndThen(c: Chunk, b: nat, info: FrameInfo, tickNs: nat): Chunk {
    match c
    case Panic => Panic
    case Chunk(st, cells, _) => Prepend(cells, ReadFrame(st, b, info, tickNs))
  }

  /** The rest of a round that left m cells to do, in either room. */
  lemma {:induction false} ThenSplits(x: Chunk, y: Chunk, m: nat, b: nat, info: FrameInfo, tickNs: nat)
    requires x.Chunk? && Alike(x, y)
    requires Alike(ReadFrame(x.st, m + b, x.info, tickNs),
                   AndThen(ReadFrame(x.st, m, x.info, tickNs), b, x.info, tickNs))
    ensures Alike(Prepend(x.cells, ReadFrame(y.st, m + b, y.info, tickNs)),
                  AndThen(Prepend(x.cells, ReadFrame(x.st, m, x.info, tickNs)), b, info, tickNs))
  {
    hide ReadFrame;
    FrameAlike(x.st, m + b, x.info, y.info, tickNs);
    var p := ReadFrame(x.st, m, x.info, tickNs);
    if p.Chunk? {
      FrameAlike(p.st, b, x.info, info, tickNs);
      PrependTwice(x.cells, p.cells, ReadFrame(p.st, b, info, tickNs));
    }
  }

  /** A frame that was filled by its first round, against one round and the rest of a larger frame. */
  lemma {:induction false} FilledSplits(st: State, a: nat, b: nat, info: FrameInfo, tickNs: nat)
    requires a > 0 && b > 0 && RoundGrows(st, a, b, info, tickNs)
    requires var x := ReadSamples(st, a, info, tickNs); x.Chunk? && |x.cells| == a
    ensures Alike(ReadFrame(st, a + b, info, tickNs), AndThen(ReadFrame(st, a, info, tickNs), b, info, tickNs))
  {
    hide ReadSamples;
    var x, y := ReadSamples(st, a, info, tickNs), ReadSamples(st, a + b, info, tickNs);
    assert x.cells + [] == x.cells;
    var z := ReadSamples(x.st, b, info, tickNs);
    if z.Chunk? {
      ReadProgress(x.st, b, info, tickNs);
      ReadProgress(st, a + b, info, tickNs);
      var m := b - |z.cells|;
      FrameAlike(z.st, m, y.info, z.info, tickNs);
      PrependTwice(x.cells, z.cells, ReadFrame(z.st, m, z.info, tickNs));
    }
  }

  /** A frame of a + b cells is a frame of a cells and then one of b, for any packets and timestamps. */
  lemma {:induction false} FrameSplits(st: State, a: nat, b: nat, info: FrameInfo, tickNs: nat)
    requires Sane(st) && AllQueued(st.script)
    ensures Alike(ReadFrame(st, a + b, info, tickNs), AndThen(ReadFrame(st, a, info, tickNs), b, info, tickNs))
    decreases a, |st.script|, if st.held.Some? then 1 else 0
  {
    hide Sane, ReadSamples;
    var whole := ReadFrame(st, a + b, info, tickNs);
    if a == 0 {
      assert whole.Chunk? ==> [] + whole.cells == whole.cells;
    } else if b == 0 {
      assert whole.Chunk? ==> whole.cells + [] == whole.cells;
    } else {
      SamplesPanicIff(st, a, info, tickNs);
      SamplesGrow(st, a, b, info, tickNs);
      var x, y := ReadSamples(st, a, info, tickNs), ReadSamples(st, a + b, info, tickNs);
      if x.Chunk? {
        ReadProgress(st, a, info, tickNs);
        if |x.cells| < a {
          var m := a - |x.cells|;
          FrameSplits(x.st, m, b, x.info, tickNs);
          ThenSplits(x, y, m, b, info, tickNs);
        } else {
          FilledSplits(st, a, b, info, tickNs);
        }
      }
    }
  }

  // ---------------------------------------------------------------- runs

  /** What a frame leaves is sane, and its answers are among those queued before. */
  lemma {:induction false} FrameQueued(st: State, room: nat, info: FrameInfo, tickNs: nat)
    requires Sane(st) && AllQueued(st.script) && ReadFrame(st, room, info, tickNs).Chunk?
    ensures var c := ReadFrame(st, room, info, tickNs);
            Sane(c.st) && AllQueued(c.st.script)
    decreases room, |st.script|, if st.held.Some? then 1 else 0
  {
    hide Sane, ReadSamples, Origin;
    if room > 0 {
      SamplesPanicIff(st, room, info, tickNs);
      ReadProgress(st, room, info, tickNs);
      var a := ReadSamples(st, room, info, tickNs);
      FrameQueued(a.st, room - |a.cells|, a.info, tickNs);
    }
  }

  /**
   * With all packets queued up front, a run over any division into frames panics exactly when one
   * frame of the whole length does; otherwise it plays the same cells and ends in the same state.
   */
  lemma {:induction false} RunIsOneFrame(st: State, sizes: seq<nat>, tickNs: nat)
    requires Sane(st) && AllQueued(st.script)
    ensures var r, c := PlayAll(st, sizes, tickNs), ReadFrame(st, Total(sizes), NO_INFO, tickNs);
            && (r.Broken? <==> c.Panic?)
            && (r.Played? ==> r.cells == c.cells && r.st == c.st)
    decreases |sizes|
  {
    hide ReadFrame, Sane;
    if sizes == [] {
      assert ReadFrame(st, 0, NO_INFO, tickNs) == Chunk(st, [], NO_INFO) by {
        EmptyFrame(st, NO_INFO, tickNs);
      }
    } else {
      FrameSplits(st, sizes[0], Total(sizes[1..]), NO_INFO, tickNs);
      var c := ReadFrame(st, sizes[0], NO_INFO, tickNs);
      if c.Chunk? {
        FrameQueued(st, sizes[0], NO_INFO, tickNs);
        RunIsOneFrame(c.st, sizes[1..], tickNs);
      }
    }
  }

  lemma {:induction false} EmptyFrame(st: State, info: FrameInfo, tickNs: nat)
    ensures ReadFrame(st, 0, info, tickNs) == Chunk(st, [], info)
  {
  }

  /** Two divisions of the same total length are the same run. */
  lemma {:induction false} DivisionDoesNotMatter(st: State, sizes: seq<nat>, sizes': seq<nat>, tickNs: nat)
    requires Sane(st) && AllQueued(st.script) && Total(sizes) == Total(sizes')
    ensures PlayAll(st, sizes, tickNs) == PlayAll(st, sizes', tickNs)
  {
    hide ReadFrame, PlayAll, Sane;
    RunIsOneFrame(st, sizes, tickNs);
    RunIsOneFrame(st, sizes', tickNs);
  }

  /** A frame that meets an empty answer is silent to its end, whatever the reader has behind it. */
  lemma {:induction false} DryFrameAsksOnce(st: State, room: nat, info: FrameInfo, tickNs: nat)
    requires st.held.None? && st.script != [] && st.script[0].None? && room > 0
    ensures var c := ReadFrame(st, room, info, tickNs);
            && c.Chunk? && c.cells == Gaps(room)
            && c.st.held.None? && c.st.script == st.script[1..]
  {
    hide MarkCts, AdvanceCts, SkipMissing;
    var u := Update(st, info, tickNs).st;
    DryStays(u, room, tickNs);
    var x := ReadSamples(st, room, info, tickNs);
    assert x.st.script == st.script[1..] && x.cells == Gaps(room);
    EmptyFrame(x.st, x.info, tickNs);
    assert x.cells + [] == x.cells;
  }

  /** What a packet has for a time: its sample, or nothing. */
  function CellFor(p: Option<Packet>, t: Timestamp): Cell {
    if p.Some? && (t - p.value.ts) % WRAP < |p.value.samples| then Audio(p.value.samples[(t - p.value.ts) % WRAP])
    else Gap
  }

  /** Accepted by a started stream, a packet is cut at the position or lies ahead of it. */
  lemma {:induction false} AcceptedCell(st: State, p: Packet, tickNs: nat)
    requires Sane(st) && st.started && st.held.None? && |p.samples| < HALF
    requires Lt(st.streamTs, Advance(p.ts, |p.samples|)) && AcceptPacket(st, p, tickNs).Some?
    ensures var a := AcceptPacket(st, p, tickNs).value;
            && a.held.Some? && a.streamTs == st.streamTs
            && var d := a.held.value;
               if d.pos == st.streamTs then d.rest != [] && CellFor(Some(p), st.streamTs) == Audio(d.rest[0])
               else Lt(st.streamTs, d.pos) && CellFor(Some(p), st.streamTs) == Gap
  {
    hide Ns;
    var ts := st.streamTs;
    OverlapSize(ts, p.ts, |p.samples|);
    if Lt(p.ts, ts) {
      var n := Diff(ts, p.ts);
      ShiftedPosition(ts, p.ts);
      assert p.samples[n..][0] == p.samples[n];
    } else {
      DiffAhead(p.ts, ts);
    }
  }

  /** The next sample of a started stream without a packet: what the fetched packet has for it. */
  lemma {:induction false} OneSample(st: State, tickNs: nat)
    requires Sane(st) && st.started && st.held.None?
    ensures var c := ReadFrame(st, 1, NO_INFO, tickNs);
            && (c.Panic? <==> HalfRangePacket(st))
            && (c.Chunk? ==> c.cells == [CellFor(FetchPacket(st.script, st.streamTs, true).packet, st.streamTs)])
  {
    hide Sane, HalfRangePacket, CellFor, ReadSamples;
    SamplesPanicIff(st, 1, NO_INFO, tickNs);
    if !HalfRangePacket(st) {
      OneRound(st, tickNs);
      var x := ReadSamples(st, 1, NO_INFO, tickNs);
      EmptyFrame(x.st, x.info, tickNs);
      assert x.cells + [] == x.cells;
    }
  }

  lemma {:induction false} OneRound(st: State, tickNs: nat)
    requires Sane(st) && st.started && st.held.None? && !HalfRangePacket(st)
    ensures var x := ReadSamples(st, 1, NO_INFO, tickNs);
            x.Chunk? && x.cells == [CellFor(FetchPacket(st.script, st.streamTs, true).packet, st.streamTs)]
  {
    hide Sane, HalfRangePacket, CellFor, AcceptPacket, MarkCts, AdvanceCts;
    SamplesPanicIff(st, 1, NO_INFO, tickNs);
    UpdatePanicsIff(st, NO_INFO, tickNs);
    var f := FetchPacket(st.script, st.streamTs, true);
    if f.packet.None? {
      assert CellFor(None, st.streamTs) == Gap by {
        NothingFor(st.streamTs);
      }
    } else {
      var st1 := st.(script := f.script);
      FetchedSane(st);
      FetchNotLate(st.script, st.streamTs);
      AcceptedCell(st1, f.packet.value, tickNs);
      var u := Update(st, NO_INFO, tickNs);
      HeldSample(u.st, u.info, tickNs);
    }
  }

  lemma {:induction false} NothingFor(t: Timestamp)
    ensures CellFor(None, t) == Gap
  {
  }

  lemma {:induction false} FetchedSane(st: State)
    requires Sane(st) && st.held.None?
    ensures var f := FetchPacket(st.script, st.streamTs, st.started);
            && Sane(st.(script := f.script))
            && (f.packet.Some? ==> |f.packet.value.samples| < HALF)
  {
    FetchSubset(st.script, st.streamTs, st.started);
  }

  /** One sample from a held packet: its first one, or the gap before it. */
  lemma {:induction false} HeldSample(st: State, info: FrameInfo, tickNs: nat)
    requires Sane(st) && st.held.Some?
    requires st.held.value.pos == st.streamTs ==> st.held.value.rest != []
    ensures var x := ReadSamples(st, 1, info, tickNs);
            && x.Chunk?
            && x.cells == [if st.held.value.pos == st.streamTs then Audio(st.held.value.rest[0]) else Gap]
  {
    hide MarkCts, AdvanceCts;
    DiffAhead(st.held.value.pos, st.streamTs);
  }

  /**
   * When the reader has nothing now, one frame of two samples is silent, but two frames of one
   * sample play, or panic on, what the reader has behind the empty answer for the second position.
   * So the divisions sound alike exactly when the packet found there has no sample for it.
   */
  lemma {:induction false} DivisionMattersWhenDry(st: State, tickNs: nat)
    requires Sane(st) && st.started && st.held.None? && st.script != [] && st.script[0].None?
    ensures var t := Advance(st.streamTs, 1);
            var found := FetchPacket(st.script[1..], t, true).packet;
            var whole, parts := PlayAll(st, [2], tickNs), PlayAll(st, [1, 1], tickNs);
            && whole.Played? && whole.cells == [Gap, Gap]
            && (parts.Broken? <==> found.Some? && found.value.samples == [] && (found.value.ts - t) % WRAP == HALF)
            && (parts.Played? ==> parts.cells == [Gap, CellFor(found, t)])
  {
    hide ReadFrame, Sane, CellFor;
    DryFrameAsksOnce(st, 2, NO_INFO, tickNs);
    DryFrameAsksOnce(st, 1, NO_INFO, tickNs);
    FrameKeeps(st, 1, NO_INFO, tickNs);
    var a, b := ReadFrame(st, 2, NO_INFO, tickNs), ReadFrame(st, 1, NO_INFO, tickNs);
    OneSample(b.st, tickNs);
    PlayOne(st, 2, tickNs);
    PlayOne(b.st, 1, tickNs);
    assert [1, 1][1..] == [1];
    assert Gaps(2) == [Gap, Gap] && Gaps(1) == [Gap];
  }

  lemma {:induction false} PlayOne(st: State, size: nat, tickNs: nat)
    ensures var c := ReadFrame(st, size, NO_INFO, tickNs);
            PlayAll(st, [size], tickNs) == if c.Panic? then Broken else Played(c.st, c.cells)
  {
    hide ReadFrame;
    var c := ReadFrame(st, size, NO_INFO, tickNs);
    assert [size][1..] == [];
    assert c.Chunk? ==> c.cells + [] == c.cells;
  }
}
