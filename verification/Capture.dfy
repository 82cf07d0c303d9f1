/**
 * Capture times. Packets carry the capture time of their first sample; if these are linear in
 * the stream position, the depacketizer keeps track of them exactly, and the capture time it
 * puts on a frame is right exactly when the frame does not end inside a leading gap.
 */
module Capture {
  import opened Arith
  import opened Options
  import opened StreamTime
  import opened DepacketizerSpec
  import opened Timeline

  /** Capture times linear in the stream position. */
  datatype Clock = Clock(zero: int, tickNs: nat) {
    function At(p: int): int { zero + p * tickNs }
  }

  /** Answers of the reader, with stream positions; None is "no data". */
  type Answers = seq<Option<Ext>>

  function WireAnswers(xs: Answers): (s: Script)
    ensures |s| == |xs|
  {
    seq(|xs|, i requires 0 <= i < |xs| => if xs[i].Some? then Some(xs[i].value.OnWire()) else None)
  }

  /** These packets carry linear capture times and lie within half the range of the positions from..to. */
  ghost predicate Timed(xs: Answers, from: int, to: int, clock: Clock) {
    forall i :: 0 <= i < |xs| && xs[i].Some? ==>
      var e := xs[i].value;
      && e.cts == clock.At(e.start)
      && -HALF < e.start - to && e.start - from < HALF
      && -HALF < e.End() - to && e.End() - from < HALF
  }

  /**
   * The running capture time belongs to the held packet's position, or else to the stream position.
   * Nothing is said about the answers still to come, xs.
   */
  ghost predicate Tracks(st: State, pos: int, held: Option<Ext>, xs: Answers, clock: Clock) {
    && st.started && st.validCts && st.streamTs == Stamp(pos) && st.script == WireAnswers(xs)
    && match held
       case None => st.held.None? && st.nextCts == clock.At(pos)
       case Some(h) =>
         && st.held == Some(Decoder(Stamp(h.start), h.samples)) && st.nextCts == clock.At(h.start)
         && pos <= h.start && h.start - pos < HALF && h.End() - pos < HALF
  }

  /** Distance from pos to the next packet that is not late, if one is at hand. */
  function LeadingGap(held: Option<Ext>, xs: Answers, pos: int): nat
    decreases |xs|, if held.Some? then 1 else 0
  {
    match held
    case Some(h) =>
      if h.start > pos then h.start - pos
      else if h.samples != [] then 0
      else LeadingGap(None, xs, pos)
    case None =>
      if xs == [] || xs[0].None? then 0
      else if xs[0].value.End() <= pos then LeadingGap(None, xs[1..], pos)
      else if xs[0].value.start > pos then xs[0].value.start - pos
      else 0
  }

  lemma {:induction false} ClockStep(clock: Clock, p: int, n: nat)
    ensures clock.At(p + n) == clock.At(p) + Ns(n, clock.tickNs)
    ensures clock.At(p) == clock.At(p + n) - Ns(n, clock.tickNs)
  {
    assert (p + n) * clock.tickNs == p * clock.tickNs + n * clock.tickNs;
  }

  // ---------------------------------------------------------------- answers taken

  /** How many answers the next call of update_packet_ takes. */
  function Fetches(st: State): (k: nat)
    ensures k <= |st.script|
  {
    if st.held.Some? then 0 else |st.script| - |FetchPacket(st.script, st.streamTs, st.started).script|
  }

  lemma {:induction false} RoundTakes(st: State, room: nat, info: FrameInfo, tickNs: nat)
    requires room > 0
    ensures var c := ReadSamples(st, room, info, tickNs);
            c.Chunk? ==> |c.st.script| == |st.script| - Fetches(st)
  {
    hide Update, Fetches, MarkCts, Ns;
    UpdateTakes(st, info, tickNs);
  }

  lemma {:induction false} UpdateTakes(st: State, info: FrameInfo, tickNs: nat)
    ensures var u := Update(st, info, tickNs);
            u.Updated? ==> |u.st.script| == |st.script| - Fetches(st)
  {
    hide FetchPacket, Ns;
  }

  /** How many answers a frame takes, also when it ends in a panic. */
  function Consumed(st: State, room: nat, info: FrameInfo, tickNs: nat): (k: nat)
    ensures k <= |st.script|
    decreases room, |st.script|, if st.held.Some? then 1 else 0
  {
    if room == 0 then 0
    else
      match ReadSamples(st, room, info, tickNs)
      case Panic => Fetches(st)
      case Chunk(st1, cells, info1) =>
        ReadProgress(st, room, info, tickNs);
        RoundTakes(st, room, info, tickNs);
        Fetches(st) + Consumed(st1, room - |cells|, info1, tickNs)
  }

  lemma {:induction false} FrameTakes(st: State, room: nat, info: FrameInfo, tickNs: nat)
    ensures var c := ReadFrame(st, room, info, tickNs);
            c.Chunk? ==> |c.st.script| == |st.script| - Consumed(st, room, info, tickNs)
    decreases room, |st.script|, if st.held.Some? then 1 else 0
  {
    hide ReadSamples, Fetches;
    if room > 0 {
      var a := ReadSamples(st, room, info, tickNs);
      if a.Chunk? {
        ReadProgress(st, room, info, tickNs);
        RoundTakes(st, room, info, tickNs);
        FrameTakes(a.st, room - |a.cells|, a.info, tickNs);
      }
    }
  }

  lemma {:induction false} TimedParts(xs: Answers, k: nat, m: nat, from: int, to: int, clock: Clock)
    requires k + m <= |xs| && Timed(xs[..k + m], from, to, clock)
    ensures Timed(xs[..k], from, to, clock) && Timed(xs[k..][..m], from, to, clock)
  {
    hide Clock.At;
    assert forall i :: 0 <= i < k ==> xs[..k][i] == xs[..k + m][i];
    assert forall i :: 0 <= i < m ==> xs[k..][..m][i] == xs[..k + m][k + i];
  }

  lemma {:induction false} TimedWithin(xs: Answers, from: int, to: int, clock: Clock, from': int, to': int)
    requires Timed(xs, from, to, clock) && from <= from' && to' <= to
    ensures Timed(xs, from', to', clock)
  {
  }

  // ---------------------------------------------------------------- fetching

  /** A packet within half the range is late on the wire exactly when it ends at or before the position. */
  lemma {:induction false} LateOnWire(e: Ext, pos: int)
    requires -HALF < e.End() - pos < HALF
    ensures Lt(Stamp(pos), Advance(e.OnWire().ts, |e.OnWire().samples|)) <==> pos < e.End()
  {
    StampAdvance(e.start, |e.samples|);
    NearDiff(pos, e.End());
  }

  /** Fetching skips k late packets, stops at the next answer or the end, and so does the leading gap. */
  ghost predicate StopsAt(xs: Answers, pos: int, k: nat) {
    && k <= |xs|
    && var f, gap := FetchPacket(WireAnswers(xs), Stamp(pos), true), LeadingGap(None, xs, pos);
       if k == |xs| then f.packet.None? && f.script == [] && gap == 0
       else
         && f.script == WireAnswers(xs[k + 1..])
         && (if xs[k].None? then f.packet.None? && gap == 0
             else
               && f.packet == Some(xs[k].value.OnWire()) && pos < xs[k].value.End()
               && gap == if xs[k].value.start > pos then xs[k].value.start - pos else 0)
  }

  lemma {:induction false} StopsBehindLate(xs: Answers, pos: int, j: nat)
    requires xs != [] && xs[0].Some? && xs[0].value.End() <= pos && StopsAt(xs[1..], pos, j)
    requires !Lt(Stamp(pos), Advance(xs[0].value.OnWire().ts, |xs[0].value.OnWire().samples|))
    ensures StopsAt(xs, pos, j + 1)
  {
    hide Stamp, Advance, Lt;
    assert WireAnswers(xs)[1..] == WireAnswers(xs[1..]);
    if j < |xs[1..]| {
      assert xs[1..][j + 1..] == xs[j + 2..] && xs[1..][j] == xs[j + 1];
    }
  }

  lemma {:induction false} FetchAnswers(xs: Answers, pos: int, clock: Clock) returns (k: nat)
    requires Timed(xs[..|xs| - |FetchPacket(WireAnswers(xs), Stamp(pos), true).script|], pos, pos, clock)
    ensures StopsAt(xs, pos, k)
  {
    hide Clock.At, Stamp, Advance, Lt, Diff;
    if xs == [] {
      return 0;
    }
    var s := WireAnswers(xs);
    assert s[1..] == WireAnswers(xs[1..]);
    if xs[0].None? {
      return 0;
    }
    var used := |xs| - |FetchPacket(s, Stamp(pos), true).script|;
    assert xs[..used][0] == xs[0];
    LateOnWire(xs[0].value, pos);
    if pos < xs[0].value.End() {
      return 0;
    }
    TimedParts(xs, 1, used - 1, pos, pos, clock);
    hide Timed, StopsAt;
    var j := FetchAnswers(xs[1..], pos, clock);
    StopsBehindLate(xs, pos, j);
    k := j + 1;
  }

  lemma {:induction false} AcceptTracks(st: State, pos: int, e: Ext, xs: Answers, clock: Clock) returns (h: Ext)
    requires Tracks(st, pos, None, xs, clock)
    requires pos < e.End() && e.cts == clock.At(e.start)
    requires -HALF < e.start - pos < HALF && e.End() - pos < HALF
    ensures var a := AcceptPacket(st, e.OnWire(), clock.tickNs);
            && a.Some? && Tracks(a.value, pos, Some(h), xs, clock)
            && h.start == Max(pos, e.start) && h.End() == e.End()
  {
    hide Ns;
    NearDiff(e.start, pos);
    if e.start < pos {
      var n := pos - e.start;
      NearDiff(pos, e.start);
      StampAdvance(e.start, n);
      ClockStep(clock, e.start, n);
      h := Ext(pos, e.samples[n..], e.cts);
    } else {
      h := e;
    }
  }

  /**
   * update_packet_ keeps track of the capture time and of the distance to the next packet, if the
   * answers it takes carry linear capture times and are within half the range.
   */
  lemma {:induction false} UpdateTracks(
    st: State, pos: int, held: Option<Ext>, xs: Answers, info: FrameInfo, clock: Clock)
    returns (held': Option<Ext>)
    requires Tracks(st, pos, held, xs, clock) && Timed(xs[..Fetches(st)], pos, pos, clock)
    ensures var u, xs' := Update(st, info, clock.tickNs), xs[Fetches(st)..];
            && u.Updated? && Tracks(u.st, pos, held', xs', clock)
            && u.info.cts == info.cts && u.info.filled == info.filled
            && LeadingGap(held, xs, pos) == if held'.Some? then LeadingGap(held', xs', pos) else 0
  {
    hide AcceptPacket, Stamp, FetchPacket, Clock.At;
    if held.Some? {
      assert xs[0..] == xs;
      return held;
    }
    var used := Fetches(st);
    var k := FetchAnswers(xs, pos, clock);
    if k == |xs| {
      held' := None;
      assert xs[used..] == [];
    } else {
      assert used == k + 1;
      if xs[k].None? {
        held' := None;
      } else {
        assert xs[..used][k] == xs[k];
        var h := AcceptTracks(st.(script := WireAnswers(xs[used..])), pos, xs[k].value, xs[used..], clock);
        held' := Some(h);
      }
    }
  }

  // ---------------------------------------------------------------- one round

  /** What is missing from a gap that does not end inside the room. */
  function Excess(gap: nat, room: nat): nat { if gap > room then gap - room else 0 }

  lemma {:induction false} NsDiff(a: nat, b: nat, tickNs: nat)
    requires b <= a
    ensures Ns(a, tickNs) - Ns(b, tickNs) == Ns(a - b, tickNs)
  {
    assert a * tickNs - b * tickNs == (a - b) * tickNs;
  }

  /** Filling a gap: the frame gets the capture time of its first cell only if the gap ends in it. */
  lemma {:induction false} GapTracks(
    st: State, pos: int, h: Ext, xs: Answers, room: nat, info: FrameInfo, clock: Clock)
    requires Tracks(st, pos, Some(h), xs, clock) && room > 0
    ensures var c := FillGap(st, room, info, clock.tickNs);
            && c.Chunk? && |c.cells| == Min(h.start - pos, room)
            && Tracks(c.st, pos + |c.cells|, Some(h), xs, clock)
            && (info.cts != 0 || c.cells == [] ==> c.info.cts == info.cts)
            && (info.cts == 0 && info.filled == 0 && c.cells != [] ==>
                  c.info.cts == clock.At(pos) + Ns(Excess(h.start - pos, room), clock.tickNs))
            && c.info.filled == info.filled + |c.cells|
  {
    hide Ns, Clock.At;
    NearDiff(pos, h.start);
    NearDiff(h.start, pos);
    var gap := h.start - pos;
    var n := Min(gap, room);
    StampAdvance(pos, n);
    ClockStep(clock, pos, gap);
    NsDiff(gap, n, clock.tickNs);
  }

  /** Decoding: the capture time of the frame is set by the first decoded sample, if not before. */
  lemma {:induction false} PacketTracks(
    st: State, pos: int, h: Ext, xs: Answers, room: nat, info: FrameInfo, clock: Clock)
    returns (held': Option<Ext>)
    requires Tracks(st, pos, Some(h), xs, clock) && h.start == pos && room > 0
    ensures var c := ReadPacket(st, room, info, clock.tickNs);
            && c.Chunk? && |c.cells| == Min(room, |h.samples|)
            && Tracks(c.st, pos + |c.cells|, held', xs, clock)
            && (info.cts != 0 || c.cells == [] ==> c.info.cts == info.cts)
            && (info.cts == 0 && info.filled == 0 && c.cells != [] ==> c.info.cts == clock.At(pos))
            && c.info.filled == info.filled + |c.cells|
            && (c.cells == [] ==> held'.None?)
  {
    hide Clock.At;
    var n := Min(room, |h.samples|);
    StampAdvance(pos, n);
    ClockStep(clock, pos, n);
    assert Ns(0, clock.tickNs) == 0;
    held' := if n < room then None else Some(Ext(pos + n, h.samples[n..], h.cts));
  }

  lemma {:induction false} MissingTracks(
    st: State, pos: int, xs: Answers, room: nat, info: FrameInfo, clock: Clock)
    requires Tracks(st, pos, None, xs, clock)
    ensures Tracks(SkipMissing(AdvanceCts(st, room, clock.tickNs), room), pos + room, None, xs, clock)
    ensures var i := MarkCts(info, st, clock.tickNs);
            && (info.cts != 0 ==> i.cts == info.cts)
            && (info.cts == 0 && info.filled == 0 ==> i.cts == clock.At(pos))
            && i.filled == info.filled
  {
    hide Clock.At;
    StampAdvance(pos, room);
    ClockStep(clock, pos, room);
    assert Ns(0, clock.tickNs) == 0;
  }

  /** The effect of one round of the frame loop on the capture time of the frame. */
  ghost predicate RoundCts(gap: nat, room: nat, pos: int, info: FrameInfo, c: Chunk, clock: Clock)
    requires c.Chunk?
  {
    && (info.cts != 0 || c.cells == [] ==> c.info.cts == info.cts)
    && (info.cts == 0 && info.filled == 0 && c.cells != [] ==>
          c.info.cts == clock.At(pos) + Ns(Excess(gap, room), clock.tickNs))
    && c.info.filled == info.filled + |c.cells|
  }

  lemma {:induction false} SamplesTracks(
    st: State, pos: int, held: Option<Ext>, xs: Answers, room: nat, info: FrameInfo, clock: Clock)
    returns (held': Option<Ext>)
    requires Tracks(st, pos, held, xs, clock) && Timed(xs[..Fetches(st)], pos, pos, clock)
    requires room > 0 && clock.At(pos) > 0
    ensures var c, xs' := ReadSamples(st, room, info, clock.tickNs), xs[Fetches(st)..];
            && c.Chunk? && |c.cells| <= room
            && Tracks(c.st, pos + |c.cells|, held', xs', clock)
            && RoundCts(LeadingGap(held, xs, pos), room, pos, info, c, clock)
            && (c.cells == [] ==> LeadingGap(held', xs', pos) == LeadingGap(held, xs, pos))
  {
    hide Update, FillGap, ReadPacket, SkipMissing, AdvanceCts, MarkCts, Tracks, Ns, Clock.At, Fetches, Timed;
    TracksScript(st, pos, held, xs, clock);
    held' := UpdateTracks(st, pos, held, xs, info, clock);
    var u, xs' := Update(st, info, clock.tickNs), xs[Fetches(st)..];
    TracksHeld(u.st, pos, held', xs', clock);
    NsZero(clock.tickNs);
    if held'.Some? {
      var h := held'.value;
      GapTracks(u.st, pos, h, xs', room, u.info, clock);
      var g := FillGap(u.st, room, u.info, clock.tickNs);
      if |g.cells| < room {
        TracksHeld(g.st, pos + |g.cells|, held', xs', clock);
        held' := PacketTracks(g.st, pos + |g.cells|, h, xs', room - |g.cells|, g.info, clock);
      }
    } else {
      MissingTracks(u.st, pos, xs', room, u.info, clock);
    }
  }

  lemma {:induction false} NsZero(tickNs: nat)
    ensures Ns(0, tickNs) == 0
  {
  }

  lemma {:induction false} TracksHeld(st: State, pos: int, held: Option<Ext>, xs: Answers, clock: Clock)
    requires Tracks(st, pos, held, xs, clock)
    ensures st.held.Some? <==> held.Some?
    ensures held.Some? ==> pos <= held.value.start
  {
  }

  lemma {:induction false} TracksScript(st: State, pos: int, held: Option<Ext>, xs: Answers, clock: Clock)
    requires Tracks(st, pos, held, xs, clock)
    ensures |st.script| == |xs|
  {
  }

  // ---------------------------------------------------------------- frames and runs

  /**
   * Any frame of a started stream whose own packets carry linear capture times, whatever comes
   * after them: the running capture time stays exact, and the capture time put on the frame is
   * that of its first cell, plus the part of a leading gap that does not fit into the frame.
   */
  lemma {:induction false} FrameTracks(
    st: State, pos: int, to: int, held: Option<Ext>, xs: Answers, room: nat, info: FrameInfo, clock: Clock)
    returns (held': Option<Ext>)
    requires Tracks(st, pos, held, xs, clock) && pos + room == to
    requires Timed(xs[..Consumed(st, room, info, clock.tickNs)], pos, to, clock)
    requires clock.At(pos) > 0
    ensures var c := ReadFrame(st, room, info, clock.tickNs);
            && c.Chunk? && |c.cells| == room
            && Tracks(c.st, to, held', xs[Consumed(st, room, info, clock.tickNs)..], clock)
            && RoundCts(LeadingGap(held, xs, pos), room, pos, info, c, clock)
    decreases room, |st.script|, if st.held.Some? then 1 else 0
  {
    hide ReadSamples, Tracks, Ns, Clock.At, Timed, Fetches;
    if room == 0 {
      assert xs[0..] == xs;
      return held;
    }
    TracksScript(st, pos, held, xs, clock);
    var k, used := Fetches(st), Consumed(st, room, info, clock.tickNs);
    TimedParts(xs, k, used - k, pos, to, clock);
    TimedWithin(xs[..k], pos, to, clock, pos, pos);
    held' := SamplesTracks(st, pos, held, xs, room, info, clock);
    var a := ReadSamples(st, room, info, clock.tickNs);
    ReadProgress(st, room, info, clock.tickNs);
    RoundTakes(st, room, info, clock.tickNs);
    ClockStep(clock, pos, |a.cells|);
    var from := pos + |a.cells|;
    TimedWithin(xs[k..][..used - k], pos, to, clock, from, to);
    held' := FrameTracks(a.st, from, to, held', xs[k..], room - |a.cells|, a.info, clock);
    assert xs[k..][used - k..] == xs[used..];
  }

  /** The capture time of a frame is exact if and only if a leading gap ends within the frame. */
  lemma {:induction false} FrameCtsExactIff(
    st: State, pos: int, held: Option<Ext>, xs: Answers, room: nat, clock: Clock)
    requires Tracks(st, pos, held, xs, clock) && room > 0
    requires Timed(xs[..Consumed(st, room, NO_INFO, clock.tickNs)], pos, pos + room, clock)
    requires clock.At(pos) > 0 && clock.tickNs > 0
    ensures var c := ReadFrame(st, room, NO_INFO, clock.tickNs);
            && c.Chunk?
            && (Props(room, c.info).cts == Some(clock.At(pos)) <==> LeadingGap(held, xs, pos) <= room)
  {
    hide Tracks, ReadFrame, LeadingGap, Timed, Consumed;
    TracksScript(st, pos, held, xs, clock);
    var held' := FrameTracks(st, pos, pos + room, held, xs, room, NO_INFO, clock);
    var extra := Excess(LeadingGap(held, xs, pos), room);
    assert Ns(extra, clock.tickNs) == 0 <==> extra == 0;
  }

  /** Frame after frame, the packets taken carry linear capture times and are near the frame that takes them. */
  ghost predicate RunTimed(st: State, pos: int, xs: Answers, sizes: seq<nat>, clock: Clock)
    requires |st.script| == |xs|
    decreases |sizes|
  {
    sizes == [] ||
    (var c, k := ReadFrame(st, sizes[0], NO_INFO, clock.tickNs), Consumed(st, sizes[0], NO_INFO, clock.tickNs);
     FrameTakes(st, sizes[0], NO_INFO, clock.tickNs);
     && Timed(xs[..k], pos, pos + sizes[0], clock)
     && (c.Chunk? ==> RunTimed(c.st, pos + sizes[0], xs[k..], sizes[1..], clock)))
  }

  /** State and answers determine the leading gap: the held packet has only one position near the stream's. */
  lemma {:induction false} GapIsDetermined(
    st: State, pos: int, held: Option<Ext>, held': Option<Ext>, xs: Answers, clock: Clock)
    requires Tracks(st, pos, held, xs, clock) && Tracks(st, pos, held', xs, clock)
    ensures LeadingGap(held, xs, pos) == LeadingGap(held', xs, pos)
  {
    hide Stamp, Clock.At;
    if held.Some? {
      NearDiff(held.value.start, pos);
      NearDiff(held'.value.start, pos);
    }
  }

  /** What is left of the answers given when the reader has only the given script to come. */
  function Left(xs: Answers, script: Script): Answers {
    if |script| <= |xs| then xs[|xs| - |script|..] else []
  }

  lemma {:induction false} LeftOfLeft(xs: Answers, k: nat, script: Script)
    requires k <= |xs| && |script| <= |xs| - k
    ensures Left(xs[k..], script) == Left(xs, script)
  {
    assert xs[k..][|xs| - k - |script|..] == xs[|xs| - |script|..];
  }

  lemma {:induction false} LeftAll(xs: Answers, script: Script)
    requires |script| == |xs|
    ensures Left(xs, script) == xs
  {
    assert xs[0..] == xs;
  }

  /**
   * Any run of any length over a started stream: it does not panic, and at its end the running
   * capture time is still exact, at the position reached and with the answers not yet read.
   */
  lemma {:induction false} RunTracks(
    st: State, pos: int, held: Option<Ext>, xs: Answers, sizes: seq<nat>, clock: Clock)
    returns (held': Option<Ext>)
    requires Tracks(st, pos, held, xs, clock) && clock.At(pos) > 0
    requires RunTimed(st, pos, xs, sizes, clock)
    ensures var r := PlayAll(st, sizes, clock.tickNs);
            && r.Played? && |r.cells| == Total(sizes) && |r.st.script| <= |xs|
            && Tracks(r.st, pos + Total(sizes), held', Left(xs, r.st.script), clock)
            && clock.At(pos + Total(sizes)) > 0
    decreases |sizes|
  {
    hide Tracks, ReadFrame, Timed, Consumed, LeadingGap, Clock.At, Left;
    TracksScript(st, pos, held, xs, clock);
    if sizes == [] {
      LeftAll(xs, st.script);
      return held;
    }
    var n := sizes[0];
    var k := Consumed(st, n, NO_INFO, clock.tickNs);
    held' := FrameTracks(st, pos, pos + n, held, xs, n, NO_INFO, clock);
    ClockStep(clock, pos, n);
    var c := ReadFrame(st, n, NO_INFO, clock.tickNs);
    held' := RunTracks(c.st, pos + n, held', xs[k..], sizes[1..], clock);
    LeftOfLeft(xs, k, PlayAll(st, sizes, clock.tickNs).st.script);
  }

  /** The part of a run before frame i takes timed packets, and what it leaves is timed for frame i. */
  lemma {:induction false} RunTimedParts(st: State, pos: int, xs: Answers, sizes: seq<nat>, i: nat, clock: Clock)
    requires |st.script| == |xs| && i < |sizes| && RunTimed(st, pos, xs, sizes, clock)
    ensures RunTimed(st, pos, xs, sizes[..i], clock)
    ensures var r, at := PlayAll(st, sizes[..i], clock.tickNs), pos + Total(sizes[..i]);
            r.Played? ==>
              && |r.st.script| <= |xs|
              && Timed(Left(xs, r.st.script)[..Consumed(r.st, sizes[i], NO_INFO, clock.tickNs)], at, at + sizes[i], clock)
    decreases i
  {
    hide ReadFrame, Timed, Consumed, Left;
    if i == 0 {
      LeftAll(xs, st.script);
      return;
    }
    assert sizes[..i][1..] == sizes[1..][..i - 1];
    var n := sizes[0];
    var c, k := ReadFrame(st, n, NO_INFO, clock.tickNs), Consumed(st, n, NO_INFO, clock.tickNs);
    FrameTakes(st, n, NO_INFO, clock.tickNs);
    if c.Chunk? {
      RunTimedParts(c.st, pos + n, xs[k..], sizes[1..], i - 1, clock);
      var r := PlayAll(st, sizes[..i], clock.tickNs);
      if r.Played? {
        LeftOfLeft(xs, k, r.st.script);
      }
    }
  }

  /**
   * Every frame of every such run: its capture time is exact if and only if the gap before the next
   * packet, the held one or the first of the unread answers that is not late, ends within the frame.
   */
  lemma {:induction false} RunCtsExactIff(
    st: State, pos: int, held: Option<Ext>, xs: Answers, sizes: seq<nat>, i: nat, clock: Clock)
    returns (held': Option<Ext>)
    requires Tracks(st, pos, held, xs, clock) && clock.At(pos) > 0 && clock.tickNs > 0
    requires RunTimed(st, pos, xs, sizes, clock) && i < |sizes| && sizes[i] > 0
    ensures var r, at := PlayAll(st, sizes[..i], clock.tickNs), pos + Total(sizes[..i]);
            && r.Played? && |r.st.script| <= |xs| && Tracks(r.st, at, held', Left(xs, r.st.script), clock)
            && var c := ReadFrame(r.st, sizes[i], NO_INFO, clock.tickNs);
               && c.Chunk?
               && (Props(sizes[i], c.info).cts == Some(clock.At(at))
                   <==> LeadingGap(held', Left(xs, r.st.script), at) <= sizes[i])
  {
    hide Tracks, ReadFrame, Timed, Consumed, LeadingGap, Clock.At, Left, PlayAll;
    TracksScript(st, pos, held, xs, clock);
    RunTimedParts(st, pos, xs, sizes, i, clock);
    held' := RunTracks(st, pos, held, xs, sizes[..i], clock);
    var r := PlayAll(st, sizes[..i], clock.tickNs);
    TracksScript(r.st, pos + Total(sizes[..i]), held', Left(xs, r.st.script), clock);
    FrameCtsExactIff(r.st, pos + Total(sizes[..i]), held', Left(xs, r.st.script), sizes[i], clock);
  }

  /** Tracking begins with the first packet, at its own position. */
  lemma {:induction false} FirstPacketTracks(st: State, e: Ext, xs: Answers, info: FrameInfo, clock: Clock)
    requires !st.started && st.held.None? && st.script == WireAnswers([Some(e)] + xs)
    requires |e.samples| < HALF && e.cts == clock.At(e.start) && e.cts != 0
    ensures var u := Update(st, info, clock.tickNs);
            u.Updated? && Tracks(u.st, e.start, Some(e), xs, clock)
  {
    hide Ns, Clock.At;
    assert st.script[1..] == WireAnswers(xs);
    NearDiff(e.start, e.start);
  }

  /** No packet so far, and none to come, has a capture time. */
  ghost predicate Untimed(st: State) {
    !st.validCts && forall a :: a in st.script ==> a.Some? ==> a.value.cts == 0
  }

  lemma {:induction false} UntimedRound(st: State, room: nat, info: FrameInfo, tickNs: nat)
    requires Untimed(st) && room > 0 && ReadSamples(st, room, info, tickNs).Chunk?
    ensures var c := ReadSamples(st, room, info, tickNs); Untimed(c.st) && c.info.cts == info.cts
  {
    hide Update, Ns, Advance, Gaps, Audios;
    UntimedFetch(st, info, tickNs);
  }

  lemma {:induction false} UntimedFetch(st: State, info: FrameInfo, tickNs: nat)
    requires Untimed(st) && Update(st, info, tickNs).Updated?
    ensures var u := Update(st, info, tickNs); Untimed(u.st) && u.info.cts == info.cts
  {
    hide Ns, Advance;
    UntimedTail(st.script, st.streamTs, st.started);
  }

  lemma {:induction false} UntimedTail(script: Script, streamTs: Timestamp, started: bool)
    ensures var f := FetchPacket(script, streamTs, started);
            (forall a :: a in script ==> a.Some? ==> a.value.cts == 0) ==>
              forall a :: a in f.script ==> a.Some? ==> a.value.cts == 0
  {
    hide Lt, Advance;
    if script != [] {
      UntimedTail(script[1..], streamTs, started);
    }
  }

  /** Without capture times on packets, no frame of a run gets one. */
  lemma {:induction false} UntimedFrame(st: State, room: nat, info: FrameInfo, tickNs: nat)
    requires Untimed(st) && ReadFrame(st, room, info, tickNs).Chunk?
    ensures var c := ReadFrame(st, room, info, tickNs);
            Untimed(c.st) && c.info.cts == info.cts && (info.cts == 0 ==> Props(room, c.info).cts.None?)
    decreases room, |st.script|, if st.held.Some? then 1 else 0
  {
    hide ReadSamples, Untimed;
    if room > 0 {
      UntimedRound(st, room, info, tickNs);
      ReadProgress(st, room, info, tickNs);
      var a := ReadSamples(st, room, info, tickNs);
      UntimedFrame(a.st, room - |a.cells|, a.info, tickNs);
    }
  }

  /**
   * One sample at position 0 captured at 10, the next at position 3 captured at 13, frames of one
   * sample: the second frame, at position 1, is stamped 12 although its sample is that of 11.
   */
  lemma {:induction false} LateCaptureTime(tick: Tick)
    ensures var script := [Some(Packet(0, [tick], 10)), Some(Packet(3, [tick], 13))];
            var a := ReadFrame(State(script, None, 0, 0, false, 0, 0, 0, false), 1, NO_INFO, 1);
            && a.Chunk? && Props(1, a.info).cts == Some(10)
            && var b := ReadFrame(a.st, 1, NO_INFO, 1);
               b.Chunk? && b.cells == [Gap] && Props(1, b.info).cts == Some(12)
  {
    var p, q := Packet(0, [tick], 10), Packet(3, [tick], 13);
    var st := State([Some(p), Some(q)], None, 0, 0, false, 0, 0, 0, false);
    assert FetchPacket(st.script, 0, false) == Fetched(Some(p), [Some(q)], 0);
    var c := ReadSamples(st, 1, NO_INFO, 1);
    assert |c.cells| == 1 && c.st.script == [Some(q)] && c.st.held == Some(Decoder(1, [])) && c.info.cts == 10;
    var a := ReadFrame(st, 1, NO_INFO, 1);
    assert ReadFrame(c.st, 0, c.info, 1) == Chunk(c.st, [], c.info);
    assert a.st == c.st && a.info == c.info;
    var d := ReadSamples(a.st, 1, NO_INFO, 1);
    assert d.cells == [] && d.st.held.None? && d.st.script == [Some(q)] && d.st.streamTs == 1 && d.st.started && d.info == NO_INFO;
    assert FetchPacket(d.st.script, 1, true) == Fetched(Some(q), [], 0);
    var e := ReadSamples(d.st, 1, d.info, 1);
    assert e.cells == [Gap] && e.info.cts == 12;
    assert ReadFrame(e.st, 0, e.info, 1) == Chunk(e.st, [], e.info);
    assert ReadFrame(d.st, 1, d.info, 1).cells == [Gap];
    assert [] + [Gap] == [Gap];
  }
}
