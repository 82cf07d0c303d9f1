/**
 * The depacketizer object. Each method does in place, on the fields and on the frame buffer,
 * what the function of the same name in DepacketizerSpec computes.
 */
module Depacketizing {
  import opened Arith
  import opened Options
  import opened StreamTime
  import opened DepacketizerSpec

  /** Unfolding of the frame loop by one round. */
  lemma {:induction false} ReadFrameRound(st: State, room: nat, info: FrameInfo, tickNs: nat)
    requires room > 0
    ensures var a := DepacketizerSpec.ReadSamples(st, room, info, tickNs);
            && (a.Chunk? ==> |a.cells| <= room)
            && ReadFrame(st, room, info, tickNs)
               == if a.Panic? then Panic else Prepend(a.cells, ReadFrame(a.st, room - |a.cells|, a.info, tickNs))
  {
    hide DepacketizerSpec.ReadSamples;
    if DepacketizerSpec.ReadSamples(st, room, info, tickNs).Chunk? {
      ReadProgress(st, room, info, tickNs);
    }
  }

  class Depacketizer {
    const tickNs: nat

    var reader: Script
    var packet: Option<Decoder>
    var streamTs: Timestamp
    var nextCaptureTs: int
    var validCaptureTs: bool
    var zeroSamples: Timestamp
    var missingSamples: Timestamp
    var packetSamples: Timestamp
    var firstPacket: bool

    ghost function Abs(): State
      reads this
    {
      State(reader, packet, streamTs, nextCaptureTs, validCaptureTs,
            zeroSamples, missingSamples, packetSamples, !firstPacket)
    }

    constructor (reader: Script, tickNs: nat)
      ensures Abs() == State(reader, None, 0, 0, false, 0, 0, 0, false)
      ensures this.tickNs == tickNs
    {
      this.reader, this.tickNs := reader, tickNs;
      packet, streamTs, nextCaptureTs, validCaptureTs := None, 0, 0, false;
      zeroSamples, missingSamples, packetSamples, firstPacket := 0, 0, 0, true;
    }

    /** The loop of update_packet_: read until a packet is not late. */
    method FetchPacket() returns (found: Option<Packet>, dropped: nat)
      modifies this`reader
      ensures Fetched(found, reader, dropped) == DepacketizerSpec.FetchPacket(old(reader), streamTs, !firstPacket)
    {
      hide Advance, Lt;
      dropped := 0;
      while reader != []
        invariant var f := DepacketizerSpec.FetchPacket(reader, streamTs, !firstPacket);
                  Fetched(f.packet, f.script, f.dropped + dropped)
                  == DepacketizerSpec.FetchPacket(old(reader), streamTs, !firstPacket)
        decreases |reader|
      {
        var answer := reader[0];
        reader := reader[1..];
        if answer.None? {
          return None, dropped;
        }
        var p := answer.value;
        if firstPacket || Lt(streamTs, Advance(p.ts, |p.samples|)) {
          return Some(p), dropped;
        }
        dropped := dropped + 1;
      }
      return None, dropped;
    }

    method UpdatePacket(info: FrameInfo) returns (ok: bool, info': FrameInfo)
      modifies this
      ensures var u := Update(old(Abs()), info, tickNs);
              if ok then u == Updated(Abs(), info') else u.UpdatePanic?
    {
      if packet.Some? {
        return true, info;
      }
      var found, dropped := FetchPacket();
      info' := info.(dropped := info.dropped + dropped);
      if found.None? {
        return true, info';
      }
      var p := found.value;
      nextCaptureTs := p.cts;
      if !validCaptureTs && nextCaptureTs != 0 {
        validCaptureTs := true;
      }
      if firstPacket {
        streamTs := p.ts;
        firstPacket := false;
      }
      if Lt(p.ts, streamTs) {
        var diff := Diff(streamTs, p.ts);
        if diff < 0 || diff > |p.samples| {
          return false, info';
        }
        if validCaptureTs {
          nextCaptureTs := nextCaptureTs + Ns(diff, tickNs);
        }
        packet := Some(Decoder(Advance(p.ts, diff), p.samples[diff..]));
      } else {
        packet := Some(Decoder(p.ts, p.samples));
      }
      return true, info';
    }

    method ReadMissingSamples(buf: array<Cell>, ptr: nat, end: nat)
      requires ptr <= end <= buf.Length
      modifies this`streamTs, this`zeroSamples, this`missingSamples, buf
      ensures Abs() == SkipMissing(old(Abs()), end - ptr)
      ensures buf[..] == old(buf[..ptr]) + Gaps(end - ptr) + old(buf[end..])
    {
      var i := ptr;
      while i < end
        invariant ptr <= i <= end
        invariant buf[..] == old(buf[..ptr]) + Gaps(i - ptr) + old(buf[i..])
        modifies buf
      {
        buf[i] := Gap;
        i := i + 1;
      }
      var n := end - ptr;
      streamTs := Advance(streamTs, n);
      if firstPacket {
        zeroSamples := Advance(zeroSamples, n);
      } else {
        missingSamples := Advance(missingSamples, n);
      }
    }

    /** Decodes as much of the held packet as fits; a packet that runs dry is closed. */
    method ReadPacketSamples(buf: array<Cell>, ptr: nat, end: nat) returns (ptr': nat)
      requires ptr <= end <= buf.Length
      requires packet.Some?
      modifies this`packet, this`streamTs, this`packetSamples, buf
      ensures var d := old(packet).value;
              var n := Min(end - ptr, |d.rest|);
              && ptr' == ptr + n
              && buf[..] == old(buf[..ptr]) + Audios(d.rest[..n]) + old(buf[ptr + n..])
              && packet == (if n < end - ptr then None else Some(Decoder(Advance(d.pos, n), d.rest[n..])))
              && streamTs == Advance(old(streamTs), n) && packetSamples == Advance(old(packetSamples), n)
    {
      var d := packet.value;
      var n := Min(end - ptr, |d.rest|);
      var i := 0;
      while i < n
        invariant 0 <= i <= n
        invariant buf[..] == old(buf[..ptr]) + Audios(d.rest[..i]) + old(buf[ptr + i..])
        modifies buf
      {
        buf[ptr + i] := Audio(d.rest[i]);
        i := i + 1;
      }
      streamTs := Advance(streamTs, n);
      packetSamples := Advance(packetSamples, n);
      packet := if n < end - ptr then None else Some(Decoder(Advance(d.pos, n), d.rest[n..]));
      ptr' := ptr + n;
    }

    /** The first half of read_samples_: silence up to the held packet. */
    method FillGap(buf: array<Cell>, ptr: nat, end: nat, info: FrameInfo)
      returns (ok: bool, ptr': nat, info': FrameInfo)
      requires ptr <= end <= buf.Length
      requires packet.Some?
      modifies this`streamTs, this`zeroSamples, this`missingSamples, buf
      ensures ok ==> ptr <= ptr' <= end && buf[..ptr] == old(buf[..ptr])
      ensures var c := DepacketizerSpec.FillGap(old(Abs()), end - ptr, info, tickNs);
              if ok then c == Chunk(Abs(), buf[ptr..ptr'], info') else c.Panic?
    {
      hide Ns, Advance, Diff;
      ptr', info' := ptr, info;
      var pos := packet.value.pos;
      if streamTs != pos {
        if !Lt(streamTs, pos) {
          return false, ptr', info';
        }
        var diff := Diff(pos, streamTs);
        var n := if diff < 0 then end - ptr else Min(diff, end - ptr);
        ReadMissingSamples(buf, ptr, ptr + n);
        ptr' := ptr + n;
        info' := info'.(filled := info'.filled + n);
        if info'.cts == 0 && validCaptureTs {
          info' := info'.(cts := nextCaptureTs - Ns(info'.filled, tickNs));
        }
      }
      ok := true;
    }

    /** The second half of read_samples_: decoded samples and their bookkeeping. */
    method ReadPacket(buf: array<Cell>, ptr: nat, end: nat, info: FrameInfo) returns (ptr': nat, info': FrameInfo)
      requires ptr <= end <= buf.Length
      requires packet.Some?
      modifies this`packet, this`streamTs, this`packetSamples, this`nextCaptureTs, buf
      ensures ptr <= ptr' <= end && buf[..ptr] == old(buf[..ptr])
      ensures Chunk(Abs(), buf[ptr..ptr'], info') == DepacketizerSpec.ReadPacket(old(Abs()), end - ptr, info, tickNs)
    {
      hide Ns, Advance;
      ptr' := ReadPacketSamples(buf, ptr, end);
      var n := ptr' - ptr;
      info' := info.(decoded := info.decoded + n);
      if n > 0 && info'.cts == 0 && validCaptureTs {
        info' := info'.(cts := nextCaptureTs - Ns(info'.filled, tickNs));
      }
      if validCaptureTs {
        nextCaptureTs := nextCaptureTs + Ns(n, tickNs);
      }
      info' := info'.(filled := info'.filled + n);
    }

    /** One round: writes the cells of the next chunk between ptr and ptr'. */
    method ReadSamples(buf: array<Cell>, ptr: nat, end: nat, info: FrameInfo)
      returns (ok: bool, ptr': nat, info': FrameInfo)
      requires ptr < end <= buf.Length
      modifies this, buf
      ensures ok ==> ptr <= ptr' <= end && buf[..ptr] == old(buf[..ptr])
      ensures var c := DepacketizerSpec.ReadSamples(old(Abs()), end - ptr, info, tickNs);
              if ok then c == Chunk(Abs(), buf[ptr..ptr'], info') else c.Panic?
    {
      hide Ns, Advance, Update, DepacketizerSpec.FillGap, DepacketizerSpec.ReadPacket;
      ptr' := ptr;
      ok, info' := UpdatePacket(info);
      if !ok {
        return;
      }
      if packet.Some? {
        ok, ptr', info' := FillGap(buf, ptr, end, info');
        if !ok {
          return;
        }
        if ptr' < end {
          ghost var gaps := buf[ptr..ptr'];
          ghost var mid := ptr';
          ptr', info' := ReadPacket(buf, ptr', end, info');
          assert buf[ptr..ptr'] == gaps + buf[mid..ptr'];
        }
      } else {
        var n := end - ptr;
        if info'.cts == 0 && validCaptureTs {
          info' := info'.(cts := nextCaptureTs - Ns(info'.filled, tickNs));
        }
        if validCaptureTs {
          nextCaptureTs := nextCaptureTs + Ns(n, tickNs);
        }
        info' := info'.(filled := info'.filled + n);
        ReadMissingSamples(buf, ptr, end);
        ptr' := end;
      }
    }

    /** read_frame_ and set_frame_props_: fills the whole buffer, or panics. */
    method Read(buf: array<Cell>) returns (props: Option<FrameProps>)
      modifies this, buf
      ensures var c := ReadFrame(old(Abs()), buf.Length, NO_INFO, tickNs);
              if props.Some? then c.Chunk? && c.st == Abs() && c.cells == buf[..] && props.value == Props(buf.Length, c.info)
              else c.Panic?
    {
      hide DepacketizerSpec.ReadSamples;
      var ptr, end, info := 0, buf.Length, NO_INFO;
      while ptr < end
        invariant 0 <= ptr <= end
        invariant ReadFrame(old(Abs()), end, NO_INFO, tickNs) == Prepend(buf[..ptr], ReadFrame(Abs(), end - ptr, info, tickNs))
        decreases end - ptr, |reader|, if packet.Some? then 1 else 0
      {
        ghost var before, done, info0, cells := Abs(), ptr, info, buf[..ptr];
        ReadFrameRound(before, end - done, info0, tickNs);
        var ok;
        ok, ptr, info := ReadSamples(buf, ptr, end, info);
        if !ok {
          return None;
        }
        ReadProgress(before, end - done, info0, tickNs);
        assert buf[..ptr] == cells + buf[done..ptr];
        PrependTwice(cells, buf[done..ptr], ReadFrame(Abs(), end - ptr, info, tickNs));
      }
      return Some(Props(end, info));
    }
  }
}
