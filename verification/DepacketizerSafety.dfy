/**
 * Safety of the depacketizer over every run: for any answers of the packet reader, any
 * timestamps and any frame sizes.
 */
module DepacketizerSafety {
  import opened Arith
  import opened Options
  import opened StreamTime
  import opened DepacketizerSpec

  /** Payloads are shorter than half the timestamp range, and a held packet is never behind the stream. */
  ghost predicate Sane(st: State) {
    && (forall a :: a in st.script ==> a.Some? ==> |a.value.samples| < HALF)
    && (st.held.Some? ==>
          && st.started && |st.held.value.rest| < HALF
          && (st.held.value.pos - st.streamTs) % WRAP < HALF)
  }

  /** The one kind of packet that gets the depacketizer killed: empty, and exactly half the range away. */
  predicate HalfRangePacket(st: State) {
    st.held.None? && st.started &&
    var p := FetchPacket(st.script, st.streamTs, true).packet;
    p.Some? && p.value.samples == [] && (p.value.ts - st.streamTs) % WRAP == HALF
  }

  lemma {:induction false} FetchNotLate(script: Script, streamTs: Timestamp)
    ensures var f := FetchPacket(script, streamTs, true);
            f.packet.Some? ==> Lt(streamTs, Advance(f.packet.value.ts, |f.packet.value.samples|))
  {
    if script != [] && script[0].Some? && !Lt(streamTs, Advance(script[0].value.ts, |script[0].value.samples|)) {
      FetchNotLate(script[1..], streamTs);
    }
  }

  lemma {:induction false} FetchSubset(script: Script, streamTs: Timestamp, started: bool)
    ensures var f := FetchPacket(script, streamTs, started);
            forall a :: a in f.script ==> a in script
  {
    if script != [] {
      FetchSubset(script[1..], streamTs, started);
      assert forall a :: a in script[1..] ==> a in script;
    }
  }

  /** A packet that is not late either starts ahead, or reaches past the stream position. */
  lemma {:induction false} OverlapSize(streamTs: Timestamp, ts: Timestamp, len: nat)
    requires len < HALF
    requires Lt(streamTs, Advance(ts, len))
    ensures var ahead := (ts - streamTs) % WRAP;
            && (Lt(ts, streamTs) <==> ahead >= HALF)
            && (ahead > HALF ==> 0 < Diff(streamTs, ts) == WRAP - ahead < len)
            && (ahead == HALF ==> len == 0 && Diff(streamTs, ts) < 0)
  {
    EndDistance(streamTs, ts, len);
    var x, y := ts - streamTs, streamTs - ts - len;
    assert x % WRAP == if x >= 0 then x else x + WRAP;
    assert (-x) % WRAP == if x <= 0 then -x else WRAP - x;
    assert y % WRAP == if y >= 0 then y else if y >= -WRAP then y + WRAP else y + 2 * WRAP;
  }

  lemma {:induction false} EndDistance(streamTs: Timestamp, ts: Timestamp, len: nat)
    ensures (streamTs - Advance(ts, len)) % WRAP == (streamTs - ts - len) % WRAP
  {
    var e := ts + len;
    var q := e / WRAP;
    assert streamTs - e % WRAP == streamTs - e + q * WRAP;
  }

  lemma {:induction false} AcceptPanicsIff(st: State, p: Packet, tickNs: nat)
    requires Sane(st) && st.held.None? && |p.samples| < HALF
    requires st.started ==> Lt(st.streamTs, Advance(p.ts, |p.samples|))
    ensures AcceptPacket(st, p, tickNs).None?
            <==> st.started && p.samples == [] && (p.ts - st.streamTs) % WRAP == HALF
    ensures var a := AcceptPacket(st, p, tickNs);
            a.Some? ==> Sane(a.value) && a.value.held.Some? && a.value.script == st.script
  {
    hide Ns;
    if st.started {
      OverlapSize(st.streamTs, p.ts, |p.samples|);
      if Lt(p.ts, st.streamTs) && AcceptPacket(st, p, tickNs).Some? {
        ShiftedPosition(st.streamTs, p.ts);
      }
    }
  }

  lemma {:induction false} ShiftedPosition(streamTs: Timestamp, ts: Timestamp)
    requires Diff(streamTs, ts) >= 0
    ensures Advance(ts, Diff(streamTs, ts)) == streamTs
  {
  }

  /** update_packet_ panics on a half-range packet and on nothing else; otherwise it keeps Sane. */
  lemma {:induction false} UpdatePanicsIff(st: State, info: FrameInfo, tickNs: nat)
    requires Sane(st)
    ensures Update(st, info, tickNs).UpdatePanic? <==> HalfRangePacket(st)
    ensures !HalfRangePacket(st) ==> Sane(Update(st, info, tickNs).st)
  {
    hide AcceptPacket, Advance;
    if st.held.None? {
      var f := FetchPacket(st.script, st.streamTs, st.started);
      var st1 := st.(script := f.script);
      assert Sane(st1) by {
        FetchSubset(st.script, st.streamTs, st.started);
      }
      if f.packet.Some? {
        if st.started {
          FetchNotLate(st.script, st.streamTs);
        }
        AcceptPanicsIff(st1, f.packet.value, tickNs);
      }
    }
  }

  /** Timestamp of the first sample, recovered from the counters. */
  function Origin(st: State): Timestamp {
    (st.streamTs - st.packetSamples - st.missingSamples) % WRAP
  }

  function CountAudio(cells: seq<Cell>): nat {
    if cells == [] then 0 else CountAudio(cells[1..]) + if cells[0].Audio? then 1 else 0
  }

  lemma {:induction false} CountAppend(a: seq<Cell>, b: seq<Cell>)
    ensures CountAudio(a + b) == CountAudio(a) + CountAudio(b)
  {
    if a == [] {
      assert a + b == b;
    } else {
      CountAppend(a[1..], b);
      assert (a + b)[1..] == a[1..] + b;
    }
  }

  lemma {:induction false} CountUniform(cells: seq<Cell>, audio: bool)
    requires forall i :: 0 <= i < |cells| ==> cells[i].Audio? == audio
    ensures CountAudio(cells) == if audio then |cells| else 0
  {
    if cells != [] {
      CountUniform(cells[1..], audio);
    }
  }

  /** What a piece of a frame does to a started stream: it moves on by exactly the cells written. */
  ghost predicate Keeps(st: State, info: FrameInfo, c: Chunk) {
    && c.Chunk? && Sane(c.st)
    && c.info.filled == info.filled + |c.cells|
    && c.info.decoded == info.decoded + CountAudio(c.cells)
    && (st.started ==>
          && c.st.started && Origin(c.st) == Origin(st)
          && c.st.streamTs == Advance(st.streamTs, |c.cells|))
  }

  lemma {:induction false} OriginMoves(ts: Timestamp, played: Timestamp, other: Timestamp, n: nat)
    ensures (Advance(ts, n) - Advance(played, n) - other) % WRAP == (ts - played - other) % WRAP
    ensures (Advance(ts, n) - other - Advance(played, n)) % WRAP == (ts - other - played) % WRAP
  {
    var k := (ts + n) / WRAP - (played + n) / WRAP;
    assert Advance(ts, n) - Advance(played, n) == ts - played - k * WRAP;
    assert (ts - played - other - k * WRAP) % WRAP == (ts - played - other) % WRAP;
  }

  lemma {:induction false} GapKeeps(st: State, room: nat, info: FrameInfo, tickNs: nat)
    requires Sane(st) && st.held.Some?
    ensures var c := FillGap(st, room, info, tickNs);
            && Keeps(st, info, c) && |c.cells| <= room && c.st.held == st.held && c.st.script == st.script
            && (|c.cells| < room ==> c.st.streamTs == st.held.value.pos)
  {
    hide Ns, Diff, Lt, Advance, CountAudio;
    var c := FillGap(st, room, info, tickNs);
    var pos := st.held.value.pos;
    DiffAhead(pos, st.streamTs);
    CountUniform([], false);
    if st.streamTs == pos {
      AdvanceBy0(st.streamTs);
    } else {
      var n := Min(Diff(pos, st.streamTs), room);
      GapDistance(st.streamTs, pos, n);
      OriginMoves(st.streamTs, st.missingSamples, st.packetSamples, n);
      CountUniform(Gaps(n), false);
    }
  }

  lemma {:induction false} AdvanceBy0(ts: Timestamp)
    ensures Advance(ts, 0) == ts
  {
  }

  lemma {:induction false} GapDistance(ts: Timestamp, pos: Timestamp, n: nat)
    requires n <= (pos - ts) % WRAP < HALF
    ensures (pos - Advance(ts, n)) % WRAP == (pos - ts) % WRAP - n
    ensures n == (pos - ts) % WRAP ==> Advance(ts, n) == pos
  {
  }

  lemma {:induction false} PacketKeeps(st: State, room: nat, info: FrameInfo, tickNs: nat)
    requires Sane(st) && st.held.Some? && st.streamTs == st.held.value.pos
    ensures var c := ReadPacket(st, room, info, tickNs);
            Keeps(st, info, c) && |c.cells| <= room && c.st.script == st.script
  {
    hide Ns;
    var d := st.held.value;
    var n := Min(room, |d.rest|);
    OriginMoves(st.streamTs, st.packetSamples, st.missingSamples, n);
    CountUniform(Audios(d.rest[..n]), true);
  }

  lemma {:induction false} MissingKeeps(st: State, room: nat, info: FrameInfo, tickNs: nat)
    requires Sane(st) && st.held.None?
    ensures var c := Chunk(SkipMissing(AdvanceCts(st, room, tickNs), room), Gaps(room),
                           var i := MarkCts(info, st, tickNs); i.(filled := i.filled + room));
            Keeps(st, info, c) && c.st.script == st.script
  {
    hide Ns;
    OriginMoves(st.streamTs, st.missingSamples, st.packetSamples, room);
    CountUniform(Gaps(room), false);
  }

  /** Fetching changes neither the position nor the counters of a started stream. */
  lemma {:induction false} UpdateStays(st: State, info: FrameInfo, tickNs: nat)
    requires Update(st, info, tickNs).Updated?
    ensures var u := Update(st, info, tickNs);
            && u.info.filled == info.filled && u.info.decoded == info.decoded
            && u.st.packetSamples == st.packetSamples && u.st.missingSamples == st.missingSamples
            && (st.started ==> u.st.started && u.st.streamTs == st.streamTs)
            && (forall a :: a in u.st.script ==> a in st.script)
            && (st.held.Some? ==> u.st == st)
  {
    hide Ns;
    FetchSubset(st.script, st.streamTs, st.started);
  }

  lemma {:induction false} KeepsTrans(st: State, info: FrameInfo, a: Chunk, b: Chunk)
    requires Keeps(st, info, a) && Keeps(a.st, a.info, b)
    ensures Keeps(st, info, Chunk(b.st, a.cells + b.cells, b.info))
  {
    hide Sane, Origin;
    CountAppend(a.cells, b.cells);
    AdvanceTwice(st.streamTs, |a.cells|, |b.cells|);
  }

  lemma {:induction false} AdvanceTwice(ts: Timestamp, a: nat, b: nat)
    ensures Advance(Advance(ts, a), b) == Advance(ts, a + b)
  {
  }

  /** read_samples_ panics on half-range packets only: the position check and the shift check cannot fail otherwise. */
  lemma {:induction false} SamplesPanicIff(st: State, room: nat, info: FrameInfo, tickNs: nat)
    requires Sane(st) && room > 0
    ensures ReadSamples(st, room, info, tickNs).Panic? <==> HalfRangePacket(st)
    ensures !HalfRangePacket(st) ==>
              var c := ReadSamples(st, room, info, tickNs);
              Keeps(st, info, c) && |c.cells| <= room && forall a :: a in c.st.script ==> a in st.script
  {
    hide FillGap, ReadPacket, Sane, HalfRangePacket, Origin, SkipMissing, AdvanceCts, MarkCts, CountAudio;
    UpdatePanicsIff(st, info, tickNs);
    if !HalfRangePacket(st) {
      UpdateStays(st, info, tickNs);
      var u := Update(st, info, tickNs);
      assert st.started ==> Origin(u.st) == Origin(st) by {
        OriginOf(st);
        OriginOf(u.st);
      }
      if u.st.held.Some? {
        GapKeeps(u.st, room, u.info, tickNs);
        var g := FillGap(u.st, room, u.info, tickNs);
        if |g.cells| < room {
          PacketKeeps(g.st, room - |g.cells|, g.info, tickNs);
          KeepsTrans(u.st, u.info, g, ReadPacket(g.st, room - |g.cells|, g.info, tickNs));
        }
      } else {
        MissingKeeps(u.st, room, u.info, tickNs);
      }
    }
  }

  lemma {:induction false} OriginOf(st: State)
    ensures Origin(st) == (st.streamTs - st.packetSamples - st.missingSamples) % WRAP
  {
  }

  /** No answer of the reader is an empty packet. */
  ghost predicate NoEmptyPackets(script: Script) {
    forall a :: a in script ==> a.Some? ==> a.value.samples != []
  }

  /**
   * Any frame of any run: the loop never panics unless empty packets occur, it writes exactly
   * the requested number of cells, the stream moves on by exactly that much, and the counters of
   * decoded and missing samples add up to the distance from the first timestamp.
   */
  lemma {:induction false} FrameKeeps(st: State, room: nat, info: FrameInfo, tickNs: nat)
    requires Sane(st)
    ensures var c := ReadFrame(st, room, info, tickNs);
            && (NoEmptyPackets(st.script) ==> c.Chunk? && NoEmptyPackets(c.st.script))
            && (c.Chunk? ==> Keeps(st, info, c) && |c.cells| == room)
    decreases room, |st.script|, if st.held.Some? then 1 else 0
  {
    hide Sane, Origin, ReadSamples;
    if room > 0 {
      SamplesPanicIff(st, room, info, tickNs);
      if !HalfRangePacket(st) {
        ReadProgress(st, room, info, tickNs);
        var a := ReadSamples(st, room, info, tickNs);
        FrameKeeps(a.st, room - |a.cells|, a.info, tickNs);
        var b := ReadFrame(a.st, room - |a.cells|, a.info, tickNs);
        if b.Chunk? {
          KeepsTrans(st, info, a, b);
        }
      }
    }
  }

  // ---------------------------------------------------------------- flags and counters

  lemma {:induction false} CountBounds(cells: seq<Cell>)
    ensures CountAudio(cells) > 0 <==> exists i :: 0 <= i < |cells| && cells[i].Audio?
    ensures CountAudio(cells) < |cells| <==> exists i :: 0 <= i < |cells| && cells[i] == Gap
    ensures CountAudio(cells) <= |cells|
  {
    if cells != [] {
      var tail := cells[1..];
      CountBounds(tail);
      assert forall i :: 0 <= i < |tail| ==> tail[i] == cells[i + 1];
      assert forall i :: 1 <= i < |cells| ==> cells[i] == tail[i - 1];
    }
  }

  /** The flags of a frame describe its contents: some audio, some gap. */
  lemma {:induction false} FlagsMatchContents(st: State, size: nat, tickNs: nat)
    requires Sane(st) && ReadFrame(st, size, NO_INFO, tickNs).Chunk?
    ensures var c := ReadFrame(st, size, NO_INFO, tickNs);
            var props := Props(size, c.info);
            && |c.cells| == size
            && (props.notBlank <==> exists i :: 0 <= i < size && c.cells[i].Audio?)
            && (props.notComplete <==> exists i :: 0 <= i < size && c.cells[i] == Gap)
  {
    FrameKeeps(st, size, NO_INFO, tickNs);
    CountBounds(ReadFrame(st, size, NO_INFO, tickNs).cells);
  }

  /** The first packet fixes the origin of the stream, however late it comes. */
  lemma {:induction false} FirstPacketIsOrigin(st: State, info: FrameInfo, tickNs: nat)
    requires Sane(st) && !st.started && st.packetSamples == 0 && st.missingSamples == 0
    ensures var u := Update(st, info, tickNs);
            && u.Updated?
            && (u.st.started ==>
                  var p := FetchPacket(st.script, st.streamTs, false).packet;
                  p.Some? && Origin(u.st) == p.value.ts)
  {
    hide Ns;
    UpdatePanicsIff(st, info, tickNs);
  }

  /** A fresh depacketizer that gets a packet of one sample and then an empty one half the range ahead panics. */
  lemma {:induction false} HalfRangePanics(tick: Tick)
    ensures var script := [Some(Packet(0, [tick], 1)), Some(Packet(HALF + 1, [], 1))];
            var st := State(script, None, 0, 0, false, 0, 0, 0, false);
            Sane(st) && ReadFrame(st, 2, NO_INFO, 1).Panic?
  {
    var first, p := Packet(0, [tick], 1), Packet(HALF + 1, [], 1);
    var st := State([Some(first), Some(p)], None, 0, 0, false, 0, 0, 0, false);
    assert FetchPacket(st.script, 0, false) == Fetched(Some(first), [Some(p)], 0);
    var a := ReadSamples(st, 2, NO_INFO, 1);
    assert a.Chunk? && |a.cells| == 1 && a.st.held.None? && a.st.streamTs == 1 && a.st.started && a.st.script == [Some(p)];
    assert FetchPacket(a.st.script, 1, true) == Fetched(Some(p), [], 0);
    assert AcceptPacket(a.st.(script := []), p, 1).None?;
    assert ReadSamples(a.st, 1, a.info, 1).Panic?;
    assert ReadFrame(a.st, 1, a.info, 1).Panic?;
  }

  // ---------------------------------------------------------------- contents

  /** Packet w carries value v for timestamp t. */
  predicate Carries(w: Packet, t: Timestamp, v: Tick) {
    var k := (t - w.ts) % WRAP;
    k < |w.samples| && w.samples[k] == v
  }

  ghost predicate RestOf(d: Decoder, w: Packet) {
    forall i :: 0 <= i < |d.rest| ==> Carries(w, Advance(d.pos, i), d.rest[i])
  }

  /** All packets seen so far and to come are in ws, and the held one is what is left of one of them. */
  ghost predicate Knows(st: State, ws: set<Packet>) {
    && (forall a :: a in st.script ==> a.Some? ==> a.value in ws)
    && (st.held.Some? ==> exists w :: w in ws && RestOf(st.held.value, w))
  }

  /** Cell i of a piece that begins at timestamp ts is silent, or what some packet carries for that very time. */
  ghost predicate Sound(cells: seq<Cell>, ts: Timestamp, ws: set<Packet>) {
    forall i :: 0 <= i < |cells| ==> cells[i].Audio? ==> SoundAt(cells[i].v, Advance(ts, i), ws)
  }

  ghost predicate SoundAt(v: Tick, t: Timestamp, ws: set<Packet>) {
    exists w :: w in ws && Carries(w, t, v)
  }

  lemma {:induction false} SoundAppend(a: seq<Cell>, b: seq<Cell>, ts: Timestamp, ws: set<Packet>)
    requires Sound(a, ts, ws) && Sound(b, Advance(ts, |a|), ws)
    ensures Sound(a + b, ts, ws)
  {
    hide SoundAt;
    forall i | 0 <= i < |a + b| && (a + b)[i].Audio?
      ensures SoundAt((a + b)[i].v, Advance(ts, i), ws)
    {
      if i >= |a| {
        AdvanceTwice(ts, |a|, i - |a|);
        assert (a + b)[i] == b[i - |a|];
      }
    }
  }

  lemma {:induction false} RestAfter(d: Decoder, w: Packet, n: nat)
    requires RestOf(d, w) && n <= |d.rest|
    ensures RestOf(Decoder(Advance(d.pos, n), d.rest[n..]), w)
  {
    hide Carries;
    forall i | 0 <= i < |d.rest| - n
      ensures Carries(w, Advance(Advance(d.pos, n), i), d.rest[n..][i])
    {
      AdvanceTwice(d.pos, n, i);
      assert d.rest[n..][i] == d.rest[n + i];
    }
  }

  lemma {:induction false} WholePacket(p: Packet)
    requires |p.samples| < HALF
    ensures RestOf(Decoder(p.ts, p.samples), p)
  {
    forall i | 0 <= i < |p.samples|
      ensures Carries(p, Advance(p.ts, i), p.samples[i])
    {
      assert (Advance(p.ts, i) - p.ts) % WRAP == i;
    }
  }

  lemma {:induction false} UpdateKnows(st: State, info: FrameInfo, tickNs: nat, ws: set<Packet>)
    requires Sane(st) && Knows(st, ws) && Update(st, info, tickNs).Updated?
    ensures Knows(Update(st, info, tickNs).st, ws)
  {
    hide Ns, Advance, Diff, RestOf;
    FetchSubset(st.script, st.streamTs, st.started);
    if st.held.None? {
      var f := FetchPacket(st.script, st.streamTs, st.started);
      if f.packet.Some? {
        var p := f.packet.value;
        assert f.packet in st.script;
        WholePacket(p);
        var streamTs := if st.started then st.streamTs else p.ts;
        if Lt(p.ts, streamTs) && 0 <= Diff(streamTs, p.ts) <= |p.samples| {
          RestAfter(Decoder(p.ts, p.samples), p, Diff(streamTs, p.ts));
        }
      }
    }
  }

  lemma {:induction false} PacketSound(st: State, room: nat, info: FrameInfo, tickNs: nat, ws: set<Packet>)
    requires st.held.Some? && st.streamTs == st.held.value.pos && Knows(st, ws)
    ensures var c := ReadPacket(st, room, info, tickNs);
            Sound(c.cells, st.streamTs, ws) && Knows(c.st, ws)
  {
    hide Ns, Advance, Carries;
    var d := st.held.value;
    var w :| w in ws && RestOf(d, w);
    var n := Min(room, |d.rest|);
    RestAfter(d, w, n);
    var cells := Audios(d.rest[..n]);
    forall i | 0 <= i < |cells|
      ensures SoundAt(cells[i].v, Advance(st.streamTs, i), ws)
    {
      assert Carries(w, Advance(d.pos, i), d.rest[i]);
    }
  }

  lemma {:induction false} GapsSound(n: nat, ts: Timestamp, ws: set<Packet>)
    ensures Sound(Gaps(n), ts, ws)
  {
  }

  lemma {:induction false} SamplesSound(st: State, room: nat, info: FrameInfo, tickNs: nat, ws: set<Packet>)
    requires Sane(st) && room > 0 && Knows(st, ws) && !HalfRangePacket(st)
    ensures var u := Update(st, info, tickNs);
            var c := ReadSamples(st, room, info, tickNs);
            && u.Updated? && c.Chunk?
            && Sound(c.cells, u.st.streamTs, ws) && Knows(c.st, ws)
            && (c.st.started ==> c.st.streamTs == Advance(u.st.streamTs, |c.cells|))
            && (!c.st.started ==> |c.cells| == room)
  {
    hide FillGap, ReadPacket, Sane, HalfRangePacket, Update, Advance, Sound, Knows, Origin;
    UpdatePanicsIff(st, info, tickNs);
    UpdateKnows(st, info, tickNs, ws);
    var u := Update(st, info, tickNs);
    if u.st.held.Some? {
      HeldStarted(u.st);
      GapKeeps(u.st, room, u.info, tickNs);
      var g := FillGap(u.st, room, u.info, tickNs);
      GapIsGaps(u.st, room, u.info, tickNs, ws);
      if |g.cells| < room {
        PacketKeeps(g.st, room - |g.cells|, g.info, tickNs);
        PacketSound(g.st, room - |g.cells|, g.info, tickNs, ws);
        var r := ReadPacket(g.st, room - |g.cells|, g.info, tickNs);
        AdvanceTwice(u.st.streamTs, |g.cells|, |r.cells|);
        SoundAppend(g.cells, r.cells, u.st.streamTs, ws);
      }
    } else {
      GapsSound(room, u.st.streamTs, ws);
      KnowsMissing(u.st, room, tickNs, ws);
    }
  }

  lemma {:induction false} HeldStarted(st: State)
    requires Sane(st) && st.held.Some?
    ensures st.started
  {
  }

  lemma {:induction false} GapIsGaps(st: State, room: nat, info: FrameInfo, tickNs: nat, ws: set<Packet>)
    requires st.held.Some? && Knows(st, ws) && FillGap(st, room, info, tickNs).Chunk?
    ensures var c := FillGap(st, room, info, tickNs);
            Sound(c.cells, st.streamTs, ws) && Knows(c.st, ws)
  {
    hide Ns, Advance, RestOf;
  }

  lemma {:induction false} KnowsMissing(st: State, room: nat, tickNs: nat, ws: set<Packet>)
    requires Knows(st, ws) && st.held.None?
    ensures Knows(SkipMissing(AdvanceCts(st, room, tickNs), room), ws)
  {
    hide Ns, Advance, RestOf;
  }

  /**
   * Any frame of any run: every audible sample is the one that some received packet carries for
   * exactly the timestamp at which it is played.
   */
  lemma {:induction false} FrameSound(st: State, room: nat, info: FrameInfo, tickNs: nat, ws: set<Packet>)
    requires Sane(st) && Knows(st, ws)
    requires room > 0 && ReadFrame(st, room, info, tickNs).Chunk?
    ensures var c := ReadFrame(st, room, info, tickNs);
            && Update(st, info, tickNs).Updated?
            && Sound(c.cells, Update(st, info, tickNs).st.streamTs, ws) && Knows(c.st, ws)
    decreases room, |st.script|, if st.held.Some? then 1 else 0
  {
    hide Sane, Origin, ReadSamples, HalfRangePacket, Update, Sound, Knows, Advance;
    SamplesPanicIff(st, room, info, tickNs);
    SamplesSound(st, room, info, tickNs, ws);
    ReadProgress(st, room, info, tickNs);
    var a := ReadSamples(st, room, info, tickNs);
    var left := room - |a.cells|;
    if left > 0 {
      FrameSound(a.st, left, a.info, tickNs, ws);
      UpdateStays(a.st, a.info, tickNs);
      SoundAppend(a.cells, ReadFrame(a.st, left, a.info, tickNs).cells, Update(st, info, tickNs).st.streamTs, ws);
    } else {
      assert a.cells + [] == a.cells;
    }
  }
}
