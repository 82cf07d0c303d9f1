/**
 * What the depacketizer computes, step by step, as functions of its state. The class in
 * Depacketizer.dfy is proved to do exactly this; the other Depacketizer files prove what
 * it means for whole frames and whole runs.
 *
 * A tick is one sample per channel. Buffers, counters and payloads are measured in ticks.
 */
module DepacketizerSpec {
  import opened Arith
  import opened Options
  import opened StreamTime

  type Tick = seq<real>

  /** What ends up in a frame: decoded audio, or the silence (or beep) of a missing sample. */
  datatype Cell = Gap | Audio(v: Tick)

  datatype Packet = Packet(ts: Timestamp, samples: seq<Tick>, cts: int)

  /** What the packet reader answers, call by call; None stands for every status but StatusOK. */
  type Script = seq<Option<Packet>>

  /** payload_decoder_ between begin() and end(). */
  datatype Decoder = Decoder(pos: Timestamp, rest: seq<Tick>)

  datatype State = State(
    script: Script,
    held: Option<Decoder>,   // packet_
    streamTs: Timestamp,
    nextCts: int,
    validCts: bool,
    zeroSamples: Timestamp,
    missingSamples: Timestamp,
    packetSamples: Timestamp,
    started: bool            // !first_packet_
  )

  datatype FrameInfo = FrameInfo(decoded: nat, filled: nat, dropped: nat, cts: int)

  const NO_INFO := FrameInfo(0, 0, 0, 0)

  /** Duration of n ticks, with exact conversion. */
  function Ns(n: nat, tickNs: nat): nat { n * tickNs }

  // ---------------------------------------------------------------- fetching a packet

  datatype Fetched = Fetched(packet: Option<Packet>, script: Script, dropped: nat)

  /** Read packets until one is not entirely in the past. The very first one always counts. */
  function FetchPacket(script: Script, streamTs: Timestamp, started: bool): (f: Fetched)
    ensures |f.script| <= |script| && f.dropped <= |script|
    ensures f.packet.Some? ==> f.packet in script && |f.script| < |script|
  {
    if script == [] then Fetched(None, [], 0)
    else
      match script[0]
      case None => Fetched(None, script[1..], 0)
      case Some(p) =>
        if !started || Lt(streamTs, Advance(p.ts, |p.samples|)) then Fetched(Some(p), script[1..], 0)
        else
          var f := FetchPacket(script[1..], streamTs, started);
          Fetched(f.packet, f.script, f.dropped + 1)
  }

  datatype Updated = UpdatePanic | Updated(st: State, info: FrameInfo)

  /** Accept a fetched packet: take over its capture time, and cut off what is already played. */
  function AcceptPacket(st: State, p: Packet, tickNs: nat): Option<State> {
    var streamTs := if st.started then st.streamTs else p.ts;
    var valid := st.validCts || p.cts != 0;
    if Lt(p.ts, streamTs) then
      var diff := Diff(streamTs, p.ts);
      if 0 <= diff <= |p.samples| then
        Some(st.(held := Some(Decoder(Advance(p.ts, diff), p.samples[diff..])), streamTs := streamTs, started := true,
                 validCts := valid, nextCts := p.cts + if valid then Ns(diff, tickNs) else 0))
      else None
    else
      Some(st.(held := Some(Decoder(p.ts, p.samples)), streamTs := streamTs, started := true,
               validCts := valid, nextCts := p.cts))
  }

  /** update_packet_ */
  function Update(st: State, info: FrameInfo, tickNs: nat): (u: Updated) {
    if st.held.Some? then Updated(st, info)
    else
      var f := FetchPacket(st.script, st.streamTs, st.started);
      var st1 := st.(script := f.script);
      var info1 := info.(dropped := info.dropped + f.dropped);
      if f.packet.None? then Updated(st1, info1)
      else
        match AcceptPacket(st1, f.packet.value, tickNs)
        case None => UpdatePanic
        case Some(st2) => Updated(st2, info1)
  }

  // ---------------------------------------------------------------- filling a frame

  datatype Chunk = Panic | Chunk(st: State, cells: seq<Cell>, info: FrameInfo)

  function Gaps(n: nat): (cells: seq<Cell>)
    ensures |cells| == n && forall i :: 0 <= i < n ==> cells[i] == Gap
  {
    seq(n, i => Gap)
  }

  function Audios(ticks: seq<Tick>): (cells: seq<Cell>)
    ensures |cells| == |ticks| && forall i :: 0 <= i < |ticks| ==> cells[i] == Audio(ticks[i])
  {
    seq(|ticks|, i requires 0 <= i < |ticks| => Audio(ticks[i]))
  }

  /** read_missing_samples_ on n ticks */
  function SkipMissing(st: State, n: nat): State {
    if st.started
    then st.(streamTs := Advance(st.streamTs, n), missingSamples := Advance(st.missingSamples, n))
    else st.(streamTs := Advance(st.streamTs, n), zeroSamples := Advance(st.zeroSamples, n))
  }

  /** The capture time of the frame is set once, from the first cells that have one. */
  function MarkCts(info: FrameInfo, st: State, tickNs: nat): FrameInfo {
    if info.cts == 0 && st.validCts then info.(cts := st.nextCts - Ns(info.filled, tickNs)) else info
  }

  function AdvanceCts(st: State, n: nat, tickNs: nat): State {
    if st.validCts then st.(nextCts := st.nextCts + Ns(n, tickNs)) else st
  }

  /** The part of read_samples_ that fills the distance to the held packet. */
  function FillGap(st: State, room: nat, info: FrameInfo, tickNs: nat): (c: Chunk)
    requires st.held.Some?
  {
    var pos := st.held.value.pos;
    if st.streamTs == pos then Chunk(st, [], info)
    else if !Lt(st.streamTs, pos) then Panic
    else
      var diff := Diff(pos, st.streamTs);
      var n := if diff < 0 then room else Min(diff, room);  // a negative difference becomes a huge size_t
      Chunk(SkipMissing(st, n), Gaps(n), MarkCts(info.(filled := info.filled + n), st, tickNs))
  }

  /** read_packet_samples_ together with its bookkeeping in read_samples_. */
  function ReadPacket(st: State, room: nat, info: FrameInfo, tickNs: nat): (c: Chunk)
    requires st.held.Some?
  {
    var d := st.held.value;
    var n := Min(room, |d.rest|);
    var info1 := info.(decoded := info.decoded + n);
    var info2 := if n > 0 then MarkCts(info1, st, tickNs) else info1;
    var held := if n < room then None else Some(Decoder(Advance(d.pos, n), d.rest[n..]));
    var st1 := AdvanceCts(st.(held := held, streamTs := Advance(st.streamTs, n),
                              packetSamples := Advance(st.packetSamples, n)), n, tickNs);
    Chunk(st1, Audios(d.rest[..n]), info2.(filled := info2.filled + n))
  }

  /** read_samples_ */
  function ReadSamples(st: State, room: nat, info: FrameInfo, tickNs: nat): (c: Chunk)
    requires room > 0
  {
    match Update(st, info, tickNs)
    case UpdatePanic => Panic
    case Updated(st1, info1) =>
      if st1.held.Some? then
        match FillGap(st1, room, info1, tickNs)
        case Panic => Panic
        case Chunk(st2, gaps, info2) =>
          if |gaps| < room then
            var c := ReadPacket(st2, room - |gaps|, info2, tickNs);
            Chunk(c.st, gaps + c.cells, c.info)
          else Chunk(st2, gaps, info2)
      else
        var info2 := MarkCts(info1, st1, tickNs);
        Chunk(SkipMissing(AdvanceCts(st1, room, tickNs), room), Gaps(room), info2.(filled := info2.filled + room))
  }

  /** An iteration that yields nothing uses up an answer of the reader or the held packet. */
  lemma {:induction false} ReadProgress(st: State, room: nat, info: FrameInfo, tickNs: nat)
    requires room > 0 && ReadSamples(st, room, info, tickNs).Chunk?
    ensures var c := ReadSamples(st, room, info, tickNs);
            && |c.cells| <= room && |c.st.script| <= |st.script|
            && (c.cells == [] ==> |c.st.script| < |st.script| || (c.st.script == st.script && st.held.Some? && c.st.held.None?))
  {
  }

  /** read_frame_: the loop over read_samples_. */
  function ReadFrame(st: State, room: nat, info: FrameInfo, tickNs: nat): (c: Chunk)
    decreases room, |st.script|, if st.held.Some? then 1 else 0
  {
    if room == 0 then Chunk(st, [], info)
    else
      match ReadSamples(st, room, info, tickNs)
      case Panic => Panic
      case Chunk(st1, cells, info1) =>
        ReadProgress(st, room, info, tickNs);
        match ReadFrame(st1, room - |cells|, info1, tickNs)
        case Panic => Panic
        case Chunk(st2, more, info2) => Chunk(st2, cells + more, info2)
  }

  /** A chunk with more cells in front. */
  function Prepend(cells: seq<Cell>, c: Chunk): Chunk {
    match c
    case Panic => Panic
    case Chunk(st, more, info) => Chunk(st, cells + more, info)
  }

  lemma {:induction false} PrependTwice(a: seq<Cell>, b: seq<Cell>, c: Chunk)
    ensures Prepend(a, Prepend(b, c)) == Prepend(a + b, c)
  {
    if c.Chunk? {
      assert a + (b + c.cells) == a + b + c.cells;
    }
  }

  // ---------------------------------------------------------------- frame properties

  datatype FrameProps = FrameProps(notBlank: bool, notComplete: bool, packetDrops: bool, cts: Option<int>)

  /** set_frame_props_ */
  function Props(size: nat, info: FrameInfo): FrameProps {
    FrameProps(info.decoded != 0, info.decoded < size, info.dropped != 0, if info.cts > 0 then Some(info.cts) else None)
  }
}
