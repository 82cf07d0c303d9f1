/**
 * What happens to every packet that is taken from the reader: it is accepted, or it has ended before the
 * stream position and is dropped. The packet-drops flag of a frame says which.
 */
module PacketDrops {
  import opened Arith
  import opened StreamTime
  import opened DepacketizerSpec
  import opened DepacketizerSafety
  import opened Retained

  /** A packet taken while the stream stood at a timestamp; the first packet ever finds no stream. */
  datatype Taken = Taken(packet: Packet, at: Timestamp, playing: bool) {
    /** It ended at the position, or up to half the range before it. */
    predicate Late() { playing && (at - packet.ts - |packet.samples|) % WRAP < HALF }
  }

  /** The packets among answers of the reader. */
  function Packets(script: Script): seq<Packet> {
    if script == [] then []
    else (if script[0].Some? then [script[0].value] else []) + Packets(script[1..])
  }

  function CountLate(ts: seq<Taken>): nat {
    if ts == [] then 0 else (if ts[0].Late() then 1 else 0) + CountLate(ts[1..])
  }

  function PacketsOf(ts: seq<Taken>): seq<Packet> {
    if ts == [] then [] else [ts[0].packet] + PacketsOf(ts[1..])
  }

  /** What a fetch at a timestamp takes: late packets, and the first that is not. */
  function FetchTaken(script: Script, at: Timestamp, playing: bool): seq<Taken> {
    if script == [] || script[0].None? then []
    else
      var t := Taken(script[0].value, at, playing);
      [t] + if t.Late() then FetchTaken(script[1..], at, playing) else []
  }

  /** The packets that the next call of update_packet_ takes. */
  function NextTaken(st: State): seq<Taken> {
    if st.held.Some? then [] else FetchTaken(st.script, st.streamTs, st.started)
  }

  /** All packets taken while a frame is read. */
  function FrameTaken(st: State, room: nat, info: FrameInfo, tickNs: nat): seq<Taken>
    decreases room, |st.script|, if st.held.Some? then 1 else 0
  {
    if room == 0 then []
    else
      match ReadSamples(st, room, info, tickNs)
      case Panic => NextTaken(st)
      case Chunk(st1, cells, info1) =>
        ReadProgress(st, room, info, tickNs);
        NextTaken(st) + FrameTaken(st1, room - |cells|, info1, tickNs)
  }

  // ---------------------------------------------------------------- lists

  lemma {:induction false} CountAppend(a: seq<Taken>, b: seq<Taken>)
    ensures CountLate(a + b) == CountLate(a) + CountLate(b)
  {
    if a == [] {
      assert a + b == b;
    } else {
      CountAppend(a[1..], b);
      assert (a + b)[1..] == a[1..] + b;
    }
  }

  lemma {:induction false} CountSome(ts: seq<Taken>)
    ensures CountLate(ts) <= |ts|
    ensures CountLate(ts) > 0 <==> exists t :: t in ts && t.Late()
  {
    if ts != [] {
      CountSome(ts[1..]);
      assert forall t :: t in ts <==> t == ts[0] || t in ts[1..];
    }
  }

  lemma {:induction false} LateIs(p: Packet, ts: Timestamp, started: bool)
    ensures Taken(p, ts, started).Late() <==> started && !Lt(ts, Advance(p.ts, |p.samples|))
  {
    EndDistance(ts, p.ts, |p.samples|);
  }

  // ---------------------------------------------------------------- fetching

  /** Fetching counts the late packets it takes; the packet it finds is the last one taken. */
  lemma {:induction false} FetchTakes(script: Script, at: Timestamp, playing: bool)
    ensures var f, taken := FetchPacket(script, at, playing), FetchTaken(script, at, playing);
            && f.dropped == CountLate(taken)
            && |taken| == f.dropped + (if f.packet.Some? then 1 else 0)
            && (f.packet.Some? ==> taken[|taken| - 1] == Taken(f.packet.value, at, playing) && !taken[|taken| - 1].Late())
  {
    hide Lt, Advance, Diff, Taken.Late;
    if script != [] && script[0].Some? {
      var t := Taken(script[0].value, at, playing);
      LateIs(t.packet, at, playing);
      if t.Late() {
        FetchTakes(script[1..], at, playing);
        assert ([t] + FetchTaken(script[1..], at, playing))[1..] == FetchTaken(script[1..], at, playing);
      } else {
        assert [t][1..] == [];
      }
    }
  }

  /** What a fetch takes and what it leaves are all the packets there were. */
  lemma {:induction false} FetchConserves(script: Script, at: Timestamp, playing: bool)
    ensures Packets(script) == PacketsOf(FetchTaken(script, at, playing)) + Packets(FetchPacket(script, at, playing).script)
  {
    hide Lt, Advance, Diff, Taken.Late;
    if script != [] && script[0].Some? {
      var t := Taken(script[0].value, at, playing);
      LateIs(t.packet, at, playing);
      if t.Late() {
        FetchConserves(script[1..], at, playing);
        assert ([t] + FetchTaken(script[1..], at, playing))[1..] == FetchTaken(script[1..], at, playing);
      } else {
        assert [t][1..] == [];
      }
    }
  }

  lemma {:induction false} FetchTakenAt(script: Script, at: Timestamp, playing: bool, t: Taken)
    requires t in FetchTaken(script, at, playing)
    ensures t.at == at && t.playing == playing
  {
    if t != Taken(script[0].value, at, playing) {
      FetchTakenAt(script[1..], at, playing, t);
    }
  }

  /** update_packet_: what it takes, what it counts, and what it leaves. */
  lemma {:induction false} UpdateTakes(st: State, info: FrameInfo, tickNs: nat)
    requires Sane(st) && Update(st, info, tickNs).Updated?
    ensures var u, taken := Update(st, info, tickNs), NextTaken(st);
            && u.info.dropped == info.dropped + CountLate(taken)
            && |taken| == CountLate(taken) + |Accepted(st, tickNs)|
            && Packets(st.script) == PacketsOf(taken) + Packets(u.st.script)
  {
    hide AcceptPacket, Packets, CountLate;
    if st.held.Some? {
      NothingTaken(st);
    } else {
      var f := FetchPacket(st.script, st.streamTs, st.started);
      FetchTakes(st.script, st.streamTs, st.started);
      FetchConserves(st.script, st.streamTs, st.started);
      AcceptedIs(st, info, tickNs, 0);
      HeldIffFound(st, info, tickNs);
    }
  }

  lemma {:induction false} NothingTaken(st: State)
    requires st.held.Some?
    ensures NextTaken(st) == [] && CountLate([]) == 0 && PacketsOf([]) == []
  {
  }

  lemma {:induction false} HeldIffFound(st: State, info: FrameInfo, tickNs: nat)
    requires st.held.None? && Update(st, info, tickNs).Updated?
    ensures var u := Update(st, info, tickNs).st;
            && (u.held.Some? <==> FetchPacket(st.script, st.streamTs, st.started).packet.Some?)
            && u.script == FetchPacket(st.script, st.streamTs, st.started).script
  {
    hide FetchPacket, Ns;
  }

  // ---------------------------------------------------------------- frames

  lemma {:induction false} RoundTakes(st: State, room: nat, info: FrameInfo, tickNs: nat)
    requires Sane(st) && room > 0 && ReadSamples(st, room, info, tickNs).Chunk?
    ensures var c, taken := ReadSamples(st, room, info, tickNs), NextTaken(st);
            && c.info.dropped == info.dropped + CountLate(taken)
            && |taken| == CountLate(taken) + |Accepted(st, tickNs)|
            && Packets(st.script) == PacketsOf(taken) + Packets(c.st.script)
  {
    hide Update, Sane, NextTaken, Accepted, Packets, CountLate, PacketsOf;
    UpdateTakes(st, info, tickNs);
    RestCounts(st, room, info, tickNs);
  }

  /** What follows the fetch drops nothing and leaves the answers alone. */
  lemma {:induction false} RestCounts(st: State, room: nat, info: FrameInfo, tickNs: nat)
    requires room > 0 && ReadSamples(st, room, info, tickNs).Chunk?
    ensures var u, c := Update(st, info, tickNs), ReadSamples(st, room, info, tickNs);
            u.Updated? && c.info.dropped == u.info.dropped && c.st.script == u.st.script
  {
    hide Update, Ns;
  }

  lemma {:induction false} PacketsOfAppend(a: seq<Taken>, b: seq<Taken>)
    ensures PacketsOf(a + b) == PacketsOf(a) + PacketsOf(b)
  {
    if a == [] {
      assert a + b == b;
    } else {
      PacketsOfAppend(a[1..], b);
      assert (a + b)[1..] == a[1..] + b;
    }
  }

  /**
   * Any frame: every packet it takes is late and counted, or accepted; packets are taken in the order
   * of the reader, and each once.
   */
  lemma {:induction false} FrameDrops(st: State, room: nat, info: FrameInfo, tickNs: nat)
    requires Sane(st) && ReadFrame(st, room, info, tickNs).Chunk?
    ensures var c, taken := ReadFrame(st, room, info, tickNs), FrameTaken(st, room, info, tickNs);
            && c.info.dropped == info.dropped + CountLate(taken)
            && |taken| == CountLate(taken) + |FrameAccepts(st, room, info, tickNs)|
            && Packets(st.script) == PacketsOf(taken) + Packets(c.st.script)
    decreases room, |st.script|, if st.held.Some? then 1 else 0
  {
    hide Sane, ReadSamples, NextTaken, Accepted, CountLate, PacketsOf, Packets;
    if room == 0 {
      NoneTaken();
    } else {
      SamplesPanicIff(st, room, info, tickNs);
      RoundTakes(st, room, info, tickNs);
      ReadProgress(st, room, info, tickNs);
      var a := ReadSamples(st, room, info, tickNs);
      FrameDrops(a.st, room - |a.cells|, a.info, tickNs);
      var more := FrameTaken(a.st, room - |a.cells|, a.info, tickNs);
      CountAppend(NextTaken(st), more);
      PacketsOfAppend(NextTaken(st), more);
    }
  }

  lemma {:induction false} NoneTaken()
    ensures CountLate([]) == 0 && PacketsOf([]) == []
  {
  }

  /** The packet-drops flag: some packet taken for the frame had ended where the stream stood. */
  lemma {:induction false} DropFlagIff(st: State, size: nat, tickNs: nat)
    requires Sane(st) && ReadFrame(st, size, NO_INFO, tickNs).Chunk?
    ensures Props(size, ReadFrame(st, size, NO_INFO, tickNs).info).packetDrops
            <==> exists t :: t in FrameTaken(st, size, NO_INFO, tickNs) && t.Late()
  {
    hide ReadFrame, FrameTaken, Sane;
    FrameDrops(st, size, NO_INFO, tickNs);
    CountSome(FrameTaken(st, size, NO_INFO, tickNs));
  }

  // ---------------------------------------------------------------- where packets are taken

  /** In a started stream, every packet is taken at a position that the frame has reached. */
  lemma {:induction false} TakenInFrame(st: State, room: nat, info: FrameInfo, tickNs: nat, t: Taken)
    requires Sane(st) && st.started && t in FrameTaken(st, room, info, tickNs)
    ensures t.playing && exists n: nat :: n < room && t.at == Advance(st.streamTs, n)
    decreases room, |st.script|, if st.held.Some? then 1 else 0
  {
    hide Sane, ReadSamples, Origin, Advance;
    if t in NextTaken(st) {
      FetchTakenAt(st.script, st.streamTs, st.started, t);
      AdvanceBy0(st.streamTs);
    } else {
      SamplesPanicIff(st, room, info, tickNs);
      ReadProgress(st, room, info, tickNs);
      var a := ReadSamples(st, room, info, tickNs);
      TakenInFrame(a.st, room - |a.cells|, a.info, tickNs, t);
      var n: nat :| n < room - |a.cells| && t.at == Advance(a.st.streamTs, n);
      AdvanceTwice(st.streamTs, |a.cells|, n);
    }
  }
}
