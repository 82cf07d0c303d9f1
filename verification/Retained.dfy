/**
 * What is retained is played: for any answers of the packet reader, any timestamps and any frame
 * sizes, the output is exactly the accepted packets, each at its own positions, and silence elsewhere.
 */
module Retained {
  import opened Arith
  import opened Options
  import opened StreamTime
  import opened DepacketizerSpec
  import opened DepacketizerSafety
  import opened Timeline

  /** A packet accepted when `since` cells were out; from cell `at` on its samples without the first `skip` are due. */
  datatype Heard = Heard(since: nat, at: nat, packet: Packet, skip: nat) {
    ghost predicate Fits() { since <= at && skip <= |packet.samples| && (skip > 0 ==> at == since) }

    function End(): int { at + |packet.samples| - skip }

    predicate Covers(i: int) { at <= i < End() }

    function SampleAt(i: int): Tick
      requires skip <= |packet.samples| && Covers(i)
    {
      packet.samples[skip + i - at]
    }

    function Later(n: nat): Heard { Heard(since + n, at + n, packet, skip) }
  }

  ghost predicate AllFit(hs: seq<Heard>) { forall k :: 0 <= k < |hs| ==> hs[k].Fits() }

  function AllLater(hs: seq<Heard>, n: nat): (r: seq<Heard>)
    ensures |r| == |hs| && forall k :: 0 <= k < |hs| ==> r[k] == hs[k].Later(n)
  {
    seq(|hs|, k requires 0 <= k < |hs| => hs[k].Later(n))
  }

  /** The cell that a list of accepted packets puts at an index. */
  ghost function CellAt(hs: seq<Heard>, i: int): Cell
    requires AllFit(hs)
  {
    if hs == [] then Gap
    else if hs[0].Covers(i) then Audio(hs[0].SampleAt(i))
    else CellAt(hs[1..], i)
  }

  lemma {:induction false} CellAtAppend(a: seq<Heard>, b: seq<Heard>, i: int)
    requires AllFit(a) && AllFit(b)
    ensures AllFit(a + b)
    ensures CellAt(a + b, i) == if CellAt(a, i) == Gap then CellAt(b, i) else CellAt(a, i)
  {
    if a == [] {
      assert a + b == b;
    } else {
      assert (a + b)[1..] == a[1..] + b;
      CellAtAppend(a[1..], b, i);
    }
  }

  lemma {:induction false} CellAtLater(hs: seq<Heard>, n: nat, i: int)
    requires AllFit(hs)
    ensures AllFit(AllLater(hs, n)) && CellAt(AllLater(hs, n), i) == CellAt(hs, i - n)
    ensures i < n ==> CellAt(AllLater(hs, n), i) == Gap
  {
    if hs != [] {
      assert AllLater(hs, n)[1..] == AllLater(hs[1..], n);
      CellAtLater(hs[1..], n, i);
    }
  }

  // ---------------------------------------------------------------- what a state owes

  /** How far ahead of the stream the held packet is. */
  function Ahead(st: State): nat
    requires st.held.Some?
  {
    (st.held.value.pos - st.streamTs) % WRAP
  }

  /** The rest of the held packet. */
  function Owed(st: State): seq<Heard> {
    if st.held.None? then []
    else [Heard(0, Ahead(st), Packet(st.held.value.pos, st.held.value.rest, 0), 0)]
  }

  /** The packet that the next fetch accepts. */
  function Accepted(st: State, tickNs: nat): seq<Heard> {
    if st.held.Some? then []
    else
      var p := FetchPacket(st.script, st.streamTs, st.started).packet;
      var u := Update(st, NO_INFO, tickNs);
      if p.None? || u.UpdatePanic? || u.st.held.None? || |u.st.held.value.rest| > |p.value.samples| then []
      else [Heard(0, Ahead(u.st), p.value, |p.value.samples| - |u.st.held.value.rest|)]
  }

  /** Everything accepted while a frame is read. */
  function FrameAccepts(st: State, room: nat, info: FrameInfo, tickNs: nat): seq<Heard>
    decreases room, |st.script|, if st.held.Some? then 1 else 0
  {
    if room == 0 then []
    else
      match ReadSamples(st, room, info, tickNs)
      case Panic => []
      case Chunk(st1, cells, info1) =>
        ReadProgress(st, room, info, tickNs);
        Accepted(st, tickNs) + AllLater(FrameAccepts(st1, room - |cells|, info1, tickNs), |cells|)
  }

  /** Everything accepted in a run. */
  function RunAccepts(st: State, sizes: seq<nat>, tickNs: nat): seq<Heard>
    decreases |sizes|
  {
    if sizes == [] then []
    else
      match ReadFrame(st, sizes[0], NO_INFO, tickNs)
      case Panic => []
      case Chunk(st1, cells, _) =>
        FrameAccepts(st, sizes[0], NO_INFO, tickNs) + AllLater(RunAccepts(st1, sizes[1..], tickNs), sizes[0])
  }

  // ---------------------------------------------------------------- one round

  /** What a held packet is due to give. */
  ghost function DueCell(ahead: nat, rest: seq<Tick>, i: int): Cell {
    if ahead <= i < ahead + |rest| then Audio(rest[i - ahead]) else Gap
  }

  lemma {:induction false} OwedIs(st: State, i: int)
    ensures AllFit(Owed(st))
    ensures CellAt(Owed(st), i) == if st.held.None? then Gap else DueCell(Ahead(st), st.held.value.rest, i)
  {
    if st.held.Some? {
      assert Owed(st)[1..] == [];
    }
  }

  /** An accepted packet is held from where the stream is: only what is past is cut off. */
  lemma {:induction false} AcceptedIs(st: State, info: FrameInfo, tickNs: nat, i: int)
    requires Sane(st) && st.held.None? && Update(st, info, tickNs).Updated?
    ensures AllFit(Accepted(st, tickNs))
    ensures var u := Update(st, info, tickNs).st;
            && (u.held.None? ==> Accepted(st, tickNs) == [])
            && (u.held.Some? ==>
                  && |Accepted(st, tickNs)| == 1
                  && CellAt(Accepted(st, tickNs), i) == DueCell(Ahead(u), u.held.value.rest, i))
  {
    hide Ns;
    var f := FetchPacket(st.script, st.streamTs, st.started);
    assert Update(st, info, tickNs).st == Update(st, NO_INFO, tickNs).st;
    if f.packet.Some? {
      var p, u := f.packet.value, Update(st, info, tickNs).st;
      var skip := |p.samples| - |u.held.value.rest|;
      assert u.held.value.rest == p.samples[skip..];
      if skip > 0 {
        assert u.held.value.pos == u.streamTs by {
          ShiftedPosition(u.streamTs, p.ts);
        }
      }
      assert Accepted(st, tickNs)[1..] == [];
    }
  }

  ghost function OwedCell(st: State, i: int): Cell {
    if st.held.None? then Gap else DueCell(Ahead(st), st.held.value.rest, i)
  }

  /** Where what is owed ends. */
  function OwedEnd(st: State): nat { if st.held.None? then 0 else Ahead(st) + |st.held.value.rest| }

  /** A chunk gives what was owed and leaves owed what is left of it. */
  ghost predicate Pays(ahead: nat, rest: seq<Tick>, c: Chunk)
    requires c.Chunk?
  {
    && (forall i :: 0 <= i < |c.cells| ==> c.cells[i] == DueCell(ahead, rest, i))
    && (forall i :: i >= |c.cells| ==> DueCell(ahead, rest, i) == OwedCell(c.st, i - |c.cells|))
    && ahead + |rest| <= |c.cells| + OwedEnd(c.st)
  }

  lemma {:induction false} GapPays(st: State, room: nat, info: FrameInfo, tickNs: nat)
    requires Sane(st) && st.held.Some?
    ensures var c := FillGap(st, room, info, tickNs);
            && c.Chunk? && |c.cells| == Min(Ahead(st), room) && c.st.held == st.held
            && Ahead(c.st) == Ahead(st) - |c.cells| && Pays(Ahead(st), st.held.value.rest, c)
  {
    hide Ns;
    var pos, ts := st.held.value.pos, st.streamTs;
    DiffAhead(pos, ts);
    var c := FillGap(st, room, info, tickNs);
    GapDistance(ts, pos, |c.cells|);
  }

  lemma {:induction false} PacketPays(st: State, room: nat, info: FrameInfo, tickNs: nat)
    requires st.held.Some? && Ahead(st) == 0 && room > 0
    ensures var c := ReadPacket(st, room, info, tickNs);
            c.Chunk? && |c.cells| <= room && (c.st.held.Some? ==> |c.cells| == room) && Pays(0, st.held.value.rest, c)
  {
    hide Ns;
    var d, c := st.held.value, ReadPacket(st, room, info, tickNs);
    assert d.pos == st.streamTs;
    assert c.st.held.Some? ==> c.st.held.value.pos == c.st.streamTs;
    assert c.st.held.Some? ==> Ahead(c.st) == 0;
  }

  lemma {:induction false} PaysInTurn(ahead: nat, rest: seq<Tick>, a: Chunk, b: Chunk)
    requires a.Chunk? && b.Chunk? && Pays(ahead, rest, a) && a.st.held.Some?
    requires Pays(Ahead(a.st), a.st.held.value.rest, b)
    ensures Pays(ahead, rest, Chunk(b.st, a.cells + b.cells, b.info))
  {
    hide DueCell;
    var c := Chunk(b.st, a.cells + b.cells, b.info);
    forall i | 0 <= i < |c.cells|
      ensures c.cells[i] == DueCell(ahead, rest, i)
    {
      if i >= |a.cells| {
        assert c.cells[i] == b.cells[i - |a.cells|];
      }
    }
    forall i | i >= |c.cells|
      ensures DueCell(ahead, rest, i) == OwedCell(c.st, i - |c.cells|)
    {
      assert DueCell(ahead, rest, i) == OwedCell(a.st, i - |a.cells|);
    }
  }

  /** One round with a packet at hand. */
  lemma {:induction false} HeldRound(st: State, room: nat, info: FrameInfo, tickNs: nat)
    requires Sane(st) && st.held.Some? && room > 0
    ensures var c := ReadSamples(st, room, info, tickNs);
            && c.Chunk? && |c.cells| <= room && (c.st.held.Some? ==> |c.cells| == room)
            && Pays(Ahead(st), st.held.value.rest, c)
  {
    hide FillGap, ReadPacket, Pays;
    GapPays(st, room, info, tickNs);
    var a := FillGap(st, room, info, tickNs);
    if |a.cells| < room {
      PacketPays(a.st, room - |a.cells|, a.info, tickNs);
      PaysInTurn(Ahead(st), st.held.value.rest, a, ReadPacket(a.st, room - |a.cells|, a.info, tickNs));
    }
  }

  /** Reading samples is fetching first. */
  lemma {:induction false} FetchThenRead(st: State, room: nat, info: FrameInfo, tickNs: nat)
    requires room > 0 && Update(st, info, tickNs).Updated? && Update(st, info, tickNs).st.held.Some?
    ensures var u := Update(st, info, tickNs);
            ReadSamples(st, room, info, tickNs) == ReadSamples(u.st, room, u.info, tickNs)
  {
  }

  /** One round, whatever the reader answers: the cells are those of the packets owed or accepted. */
  lemma {:induction false} RoundHeard(st: State, room: nat, info: FrameInfo, tickNs: nat, i: int)
    requires Sane(st) && room > 0 && ReadSamples(st, room, info, tickNs).Chunk? && 0 <= i
    ensures var c := ReadSamples(st, room, info, tickNs);
            var hs := Owed(st) + Accepted(st, tickNs);
            && Sane(c.st) && |c.cells| <= room && (c.st.held.Some? ==> |c.cells| == room)
            && AllFit(hs)
            && CellAt(hs, i) == (if i < |c.cells| then c.cells[i] else CellAt(Owed(c.st), i - |c.cells|))
            && Ends(hs) <= |c.cells| + OwedEnd(c.st)
  {
    hide Update, ReadSamples, Sane, Pays, CellAt, Accepted;
    SamplesPanicIff(st, room, info, tickNs);
    UpdatePanicsIff(st, info, tickNs);
    var u, c := Update(st, info, tickNs), ReadSamples(st, room, info, tickNs);
    OwedIs(st, i);
    OwedIs(c.st, i - |c.cells|);
    RoundDue(st, room, info, tickNs, i);
    HeldStays(st, info, tickNs);
    if st.held.Some? {
      assert Accepted(st, tickNs) == [] by {
        HeldAcceptsNone(st, tickNs);
      }
      assert Owed(st) + [] == Owed(st);
    } else {
      AcceptedIs(st, info, tickNs, i);
      AcceptedEnds(st, info, tickNs);
      assert [] + Accepted(st, tickNs) == Accepted(st, tickNs);
      EmptyCell(i);
    }
  }

  /** Where the last of a list of packets ends. */
  function Ends(hs: seq<Heard>): int { if hs == [] then 0 else hs[|hs| - 1].End() }

  lemma {:induction false} EmptyCell(i: int)
    ensures CellAt([], i) == Gap
  {
  }

  lemma {:induction false} HeldStays(st: State, info: FrameInfo, tickNs: nat)
    ensures st.held.Some? ==> Update(st, info, tickNs) == Updated(st, info)
  {
  }

  lemma {:induction false} HeldAcceptsNone(st: State, tickNs: nat)
    requires st.held.Some?
    ensures Accepted(st, tickNs) == []
  {
  }

  lemma {:induction false} AcceptedEnds(st: State, info: FrameInfo, tickNs: nat)
    requires Sane(st) && st.held.None? && Update(st, info, tickNs).Updated?
    ensures Ends(Accepted(st, tickNs)) <= OwedEnd(Update(st, info, tickNs).st)
  {
    hide Ns, AcceptPacket, FetchPacket;
    assert Update(st, info, tickNs).st == Update(st, NO_INFO, tickNs).st;
  }

  lemma {:induction false} RoundDue(st: State, room: nat, info: FrameInfo, tickNs: nat, i: int)
    requires Sane(st) && room > 0 && ReadSamples(st, room, info, tickNs).Chunk? && 0 <= i
    requires Update(st, info, tickNs).Updated? && Sane(Update(st, info, tickNs).st)
    ensures var u, c := Update(st, info, tickNs).st, ReadSamples(st, room, info, tickNs);
            && |c.cells| <= room && (c.st.held.Some? ==> |c.cells| == room)
            && OwedCell(u, i) == (if i < |c.cells| then c.cells[i] else OwedCell(c.st, i - |c.cells|))
            && OwedEnd(u) <= |c.cells| + OwedEnd(c.st)
  {
    var u, c := Update(st, info, tickNs), ReadSamples(st, room, info, tickNs);
    if u.st.held.Some? {
      hide Update, ReadSamples, Sane;
      FetchThenRead(st, room, info, tickNs);
      HeldRound(u.st, room, u.info, tickNs);
    } else {
      assert c.cells == Gaps(room) && c.st.held.None?;
    }
  }

  // ---------------------------------------------------------------- whole frames

  /** No two packets are due at the same time, and they come in order. */
  ghost predicate InTurn(hs: seq<Heard>) { forall j, k :: 0 <= j < k < |hs| ==> hs[j].End() <= hs[k].at }

  /** Putting a part of n cells, with packets hs that leave `owed` over, before a part with packets `more`. */
  lemma {:induction false} PartsConnect(hs: seq<Heard>, owed: seq<Heard>, more: seq<Heard>, n: nat, i: int)
    requires AllFit(hs) && AllFit(owed) && AllFit(more)
    requires i >= n ==> CellAt(hs, i) == CellAt(owed, i - n)
    ensures AllFit(hs + AllLater(more, n)) && AllFit(owed + more)
    ensures CellAt(hs + AllLater(more, n), i) == if i < n then CellAt(hs, i) else CellAt(owed + more, i - n)
  {
    hide CellAt;
    CellAtLater(more, n, i);
    CellAtAppend(hs, AllLater(more, n), i);
    CellAtAppend(owed, more, i - n);
  }

  lemma {:induction false} TurnsConnect(st: State, hs: seq<Heard>, after: State, more: seq<Heard>, n: nat)
    requires |hs| <= 1 || InTurn(hs)
    requires AllFit(hs) && AllFit(more) && Ends(hs) <= n + OwedEnd(after) && InTurn(Owed(after) + more)
    ensures InTurn(hs + AllLater(more, n))
    ensures Ends(hs + AllLater(more, n)) <= n + if more == [] then OwedEnd(after) else Ends(more)
  {
    var all, later := hs + AllLater(more, n), AllLater(more, n);
    var rest := Owed(after) + more;
    forall j, k | 0 <= j < k < |all|
      ensures all[j].End() <= all[k].at
    {
      if k >= |hs| {
        var l := k - |hs|;
        assert rest[|Owed(after)| + l] == more[l];
        if j >= |hs| {
          assert rest[|Owed(after)| + (j - |hs|)] == more[j - |hs|];
        } else {
          assert all[j].End() <= Ends(hs) by {
            LastEnds(hs, j);
          }
          assert after.held.Some? ==> rest[0].End() <= more[l].at;
        }
      }
    }
  }

  lemma {:induction false} LastEnds(hs: seq<Heard>, j: nat)
    requires j < |hs| && AllFit(hs) && (|hs| <= 1 || InTurn(hs))
    ensures hs[j].End() <= Ends(hs)
  {
    if j < |hs| - 1 {
      assert hs[|hs| - 1].Fits();
    }
  }

  /** From one state to another, cells are those of what was owed and of the packets accepted meanwhile. */
  ghost predicate Tells(st: State, hs: seq<Heard>, cells: seq<Cell>, after: State, i: nat) {
    var all := Owed(st) + hs;
    && AllFit(hs) && AllFit(all) && AllFit(Owed(after))
    && CellAt(all, i) == (if i < |cells| then cells[i] else CellAt(Owed(after), i - |cells|))
    && InTurn(all) && Ends(all) <= |cells| + OwedEnd(after)
  }

  lemma {:induction false} TellsNothing(st: State, i: nat)
    ensures Tells(st, [], [], st, i)
  {
    OwedIs(st, i);
    OwedEnds(st);
    assert Owed(st) + [] == Owed(st);
  }

  lemma {:induction false} TellsRound(st: State, room: nat, info: FrameInfo, tickNs: nat, i: nat)
    requires Sane(st) && room > 0 && ReadSamples(st, room, info, tickNs).Chunk?
    ensures var c := ReadSamples(st, room, info, tickNs);
            Sane(c.st) && |c.cells| <= room && Tells(st, Accepted(st, tickNs), c.cells, c.st, i)
  {
    hide ReadSamples, Sane, CellAt, Accepted, AllFit;
    RoundHeard(st, room, info, tickNs, i);
    OneAtMost(st, tickNs);
    SplitFit(Owed(st), Accepted(st, tickNs));
    OwedIs(ReadSamples(st, room, info, tickNs).st, i);
  }

  lemma {:induction false} TellsThen(
    st: State, hs: seq<Heard>, cells: seq<Cell>, mid: State, more: seq<Heard>, rest: seq<Cell>, after: State, i: nat)
    requires Tells(st, hs, cells, mid, i)
    requires Tells(mid, more, rest, after, if i < |cells| then 0 else i - |cells|)
    ensures Tells(st, hs + AllLater(more, |cells|), cells + rest, after, i)
  {
    hide CellAt, AllFit, InTurn, Ends;
    var n, all := |cells|, Owed(st) + hs;
    PartsConnect(all, Owed(mid), more, n, i);
    TurnsConnect(st, all, mid, more, n);
    assert Owed(st) + (hs + AllLater(more, n)) == all + AllLater(more, n);
    SplitFit(Owed(st), hs + AllLater(more, n));
    LastOf(Owed(mid), more);
    OwedEnds(mid);
  }

  /** A frame of any size tells what it accepts. */
  lemma {:induction false} FrameHeard(st: State, room: nat, info: FrameInfo, tickNs: nat, i: nat)
    requires Sane(st) && ReadFrame(st, room, info, tickNs).Chunk?
    ensures var c := ReadFrame(st, room, info, tickNs);
            && Sane(c.st) && |c.cells| == room
            && Tells(st, FrameAccepts(st, room, info, tickNs), c.cells, c.st, i)
    decreases room, |st.script|, if st.held.Some? then 1 else 0
  {
    hide ReadSamples, Sane, Accepted, Tells;
    if room == 0 {
      TellsNothing(st, i);
    } else {
      var a := ReadSamples(st, room, info, tickNs);
      TellsRound(st, room, info, tickNs, i);
      ReadProgress(st, room, info, tickNs);
      var n := |a.cells|;
      var b := ReadFrame(a.st, room - n, a.info, tickNs);
      FrameHeard(a.st, room - n, a.info, tickNs, if i < n then 0 else i - n);
      TellsThen(st, Accepted(st, tickNs), a.cells, a.st, FrameAccepts(a.st, room - n, a.info, tickNs), b.cells, b.st, i);
    }
  }

  lemma {:induction false} OwedEnds(st: State)
    ensures Ends(Owed(st)) == OwedEnd(st) && InTurn(Owed(st))
  {
  }

  lemma {:induction false} LastOf(a: seq<Heard>, b: seq<Heard>)
    ensures Ends(a + b) == if b == [] then Ends(a) else Ends(b)
  {
    if b == [] {
      assert a + b == a;
    }
  }

  lemma {:induction false} OneAtMost(st: State, tickNs: nat)
    ensures |Owed(st) + Accepted(st, tickNs)| <= 1
  {
  }

  lemma {:induction false} SplitFit(a: seq<Heard>, b: seq<Heard>)
    ensures AllFit(a + b) <==> AllFit(a) && AllFit(b)
  {
    if AllFit(a + b) {
      forall k | 0 <= k < |a|
        ensures a[k].Fits()
      {
        assert (a + b)[k].Fits();
      }
      forall k | 0 <= k < |b|
        ensures b[k].Fits()
      {
        assert (a + b)[|a| + k].Fits();
      }
    }
  }

  // ---------------------------------------------------------------- whole runs

  lemma {:induction false} RunHeard(st: State, sizes: seq<nat>, tickNs: nat, i: nat)
    requires Sane(st) && PlayAll(st, sizes, tickNs).Played?
    ensures var r := PlayAll(st, sizes, tickNs);
            |r.cells| == Total(sizes) && Tells(st, RunAccepts(st, sizes, tickNs), r.cells, r.st, i)
    decreases |sizes|
  {
    hide ReadFrame, Sane, FrameAccepts, Tells;
    if sizes == [] {
      TellsNothing(st, i);
    } else {
      var n := sizes[0];
      var c, r := ReadFrame(st, n, NO_INFO, tickNs), PlayAll(ReadFrame(st, n, NO_INFO, tickNs).st, sizes[1..], tickNs);
      FrameHeard(st, n, NO_INFO, tickNs, i);
      RunHeard(c.st, sizes[1..], tickNs, if i < n then 0 else i - n);
      TellsThen(st, FrameAccepts(st, n, NO_INFO, tickNs), c.cells, c.st, RunAccepts(c.st, sizes[1..], tickNs),
                r.cells, r.st, i);
    }
  }

  lemma {:induction false} CoveredCell(hs: seq<Heard>, i: int)
    requires AllFit(hs) && InTurn(hs)
    ensures CellAt(hs, i) == Gap <==> forall k :: 0 <= k < |hs| ==> !hs[k].Covers(i)
    ensures forall k :: 0 <= k < |hs| && hs[k].Covers(i) ==> CellAt(hs, i) == Audio(hs[k].SampleAt(i))
  {
    if hs != [] {
      var tail := hs[1..];
      assert forall k :: 0 <= k < |tail| ==> tail[k] == hs[k + 1];
      CoveredCell(tail, i);
      assert forall k :: 1 <= k < |hs| ==> hs[k] == tail[k - 1];
    }
  }

  /**
   * In every run of any frame sizes with any answers of the reader: a position is silent if and only
   * if no accepted packet covers it, and otherwise it holds the sample that packet carries for it.
   */
  lemma {:induction false} RetainedIsPlayed(st: State, sizes: seq<nat>, tickNs: nat, i: nat)
    requires Sane(st) && PlayAll(st, sizes, tickNs).Played? && i < Total(sizes)
    ensures var r := PlayAll(st, sizes, tickNs);
            var hs := Owed(st) + RunAccepts(st, sizes, tickNs);
            && |r.cells| == Total(sizes) && AllFit(hs)
            && (r.cells[i] == Gap <==> forall k :: 0 <= k < |hs| ==> !hs[k].Covers(i))
            && (forall k :: 0 <= k < |hs| && hs[k].Covers(i) ==> r.cells[i] == Audio(hs[k].SampleAt(i)))
  {
    hide PlayAll, Sane, RunAccepts, CellAt, InTurn;
    RunHeard(st, sizes, tickNs, i);
    CoveredCell(Owed(st) + RunAccepts(st, sizes, tickNs), i);
  }

  // ---------------------------------------------------------------- which packets, and when

  /** The packet was received, and what is heard of it is heard at its own timestamps. */
  ghost predicate OnTime(base: Timestamp, script: Script, h: Heard) {
    Some(h.packet) in script && Advance(base, h.at) == Advance(h.packet.ts, h.skip)
  }

  ghost predicate AllOnTime(base: Timestamp, script: Script, hs: seq<Heard>) {
    forall k :: 0 <= k < |hs| ==> OnTime(base, script, hs[k])
  }

  lemma {:induction false} AcceptedOnTime(st: State, info: FrameInfo, tickNs: nat)
    requires Sane(st) && Update(st, info, tickNs).Updated?
    ensures var u := Update(st, info, tickNs).st;
            && AllOnTime(u.streamTs, st.script, Accepted(st, tickNs))
            && (st.started ==> u.started && u.streamTs == st.streamTs)
            && (!u.started ==> u.held.None? && Accepted(st, tickNs) == [])
            && (forall a :: a in u.script ==> a in st.script)
  {
    hide Ns;
    UpdateStays(st, info, tickNs);
    if st.held.None? {
      assert Update(st, info, tickNs).st == Update(st, NO_INFO, tickNs).st;
      var f := FetchPacket(st.script, st.streamTs, st.started);
      FetchSubset(st.script, st.streamTs, st.started);
      if f.packet.Some? {
        var u := Update(st, info, tickNs).st;
        AheadTime(u);
        WholeSkip(f.packet.value);
      }
    }
  }

  lemma {:induction false} AheadTime(st: State)
    requires st.held.Some?
    ensures Advance(st.streamTs, Ahead(st)) == st.held.value.pos
  {
  }

  lemma {:induction false} WholeSkip(p: Packet)
    ensures Advance(p.ts, 0) == p.ts
  {
  }

  lemma {:induction false} LaterOnTime(base: Timestamp, script: Script, base': Timestamp, script': Script, hs: seq<Heard>, n: nat)
    requires AllOnTime(base', script', hs) && base' == Advance(base, n) && forall a :: a in script' ==> a in script
    ensures AllOnTime(base, script, AllLater(hs, n))
  {
    forall k | 0 <= k < |hs|
      ensures OnTime(base, script, AllLater(hs, n)[k])
    {
      assert OnTime(base', script', hs[k]);
      AdvanceTwice(base, n, hs[k].at);
    }
  }

  lemma {:induction false} FrameOnTime(st: State, room: nat, info: FrameInfo, tickNs: nat) returns (base: Timestamp)
    requires Sane(st) && ReadFrame(st, room, info, tickNs).Chunk?
    ensures var c := ReadFrame(st, room, info, tickNs);
            && Sane(c.st) && |c.cells| == room && (forall a :: a in c.st.script ==> a in st.script)
            && AllOnTime(base, st.script, FrameAccepts(st, room, info, tickNs))
            && (st.started ==> base == st.streamTs && c.st.started)
            && (c.st.started ==> c.st.streamTs == Advance(base, room))
            && (!c.st.started ==> FrameAccepts(st, room, info, tickNs) == [])
    decreases room, |st.script|, if st.held.Some? then 1 else 0
  {
    hide ReadSamples, Sane, Accepted, AllOnTime, Update;
    if room == 0 {
      base := st.streamTs;
      NoneOnTime(base, st.script);
    } else {
      var a := ReadSamples(st, room, info, tickNs);
      SamplesPanicIff(st, room, info, tickNs);
      UpdatePanicsIff(st, info, tickNs);
      ReadProgress(st, room, info, tickNs);
      AcceptedOnTime(st, info, tickNs);
      RoundTime(st, room, info, tickNs);
      base := Update(st, info, tickNs).st.streamTs;
      var n := |a.cells|;
      var more := FrameAccepts(a.st, room - n, a.info, tickNs);
      var base' := FrameOnTime(a.st, room - n, a.info, tickNs);
      if a.st.started {
        LaterOnTime(base, st.script, base', a.st.script, more, n);
        BothOnTime(base, st.script, Accepted(st, tickNs), AllLater(more, n));
        AdvanceTwice(base, n, room - n);
      } else {
        assert n == room;
        assert AllLater(more, n) == [] && [] + AllLater(more, n) == [];
      }
    }
  }

  lemma {:induction false} NoneOnTime(base: Timestamp, script: Script)
    ensures AllOnTime(base, script, []) && Advance(base, 0) == base
  {
  }

  lemma {:induction false} BothOnTime(base: Timestamp, script: Script, a: seq<Heard>, b: seq<Heard>)
    requires AllOnTime(base, script, a) && AllOnTime(base, script, b)
    ensures AllOnTime(base, script, a + b)
  {
  }

  lemma {:induction false} RoundTime(st: State, room: nat, info: FrameInfo, tickNs: nat)
    requires Sane(st) && room > 0 && ReadSamples(st, room, info, tickNs).Chunk? && Update(st, info, tickNs).Updated?
    requires Sane(Update(st, info, tickNs).st)
    ensures var u, c := Update(st, info, tickNs).st, ReadSamples(st, room, info, tickNs);
            && (u.started ==> c.st.started && c.st.streamTs == Advance(u.streamTs, |c.cells|))
            && (!u.started ==> !c.st.started && |c.cells| == room && (u.held.None? ==> c.st.held.None?))
  {
    var u := Update(st, info, tickNs);
    hide Ns, Update, Diff;
    if u.st.held.Some? {
      var g := FillGap(u.st, room, u.info, tickNs);
      AdvanceTwice(u.st.streamTs, |g.cells|, 0);
      if |g.cells| < room {
        AdvanceTwice(u.st.streamTs, |g.cells|, |ReadPacket(g.st, room - |g.cells|, g.info, tickNs).cells|);
      }
    }
  }

  /**
   * Every packet accepted in a run was received, and from where it was accepted on it is heard at
   * exactly its own timestamps, for one clock that moves by one for every cell.
   */
  lemma {:induction false} RunOnTime(st: State, sizes: seq<nat>, tickNs: nat) returns (base: Timestamp)
    requires Sane(st) && PlayAll(st, sizes, tickNs).Played?
    ensures AllOnTime(base, st.script, RunAccepts(st, sizes, tickNs))
    ensures st.started ==> base == st.streamTs
    decreases |sizes|
  {
    hide ReadFrame, Sane, FrameAccepts, AllOnTime;
    if sizes == [] {
      base := st.streamTs;
      NoneOnTime(base, st.script);
    } else {
      var n := sizes[0];
      var c := ReadFrame(st, n, NO_INFO, tickNs);
      var more := RunAccepts(c.st, sizes[1..], tickNs);
      base := FrameOnTime(st, n, NO_INFO, tickNs);
      var base' := RunOnTime(c.st, sizes[1..], tickNs);
      if !c.st.started {
        base := (base' - n) % WRAP;
        BackAndForth(base', n);
        NoneOnTime(base, st.script);
      }
      LaterOnTime(base, st.script, base', c.st.script, more, n);
      BothOnTime(base, st.script, FrameAccepts(st, n, NO_INFO, tickNs), AllLater(more, n));
    }
  }

  lemma {:induction false} BackAndForth(ts: Timestamp, n: nat)
    ensures Advance((ts - n) % WRAP, n) == ts
  {
    var q := (ts - n) / WRAP;
    assert ts - n == WRAP * q + (ts - n) % WRAP;
    assert (ts - n) % WRAP + n == ts + WRAP * (-q);
  }
}
