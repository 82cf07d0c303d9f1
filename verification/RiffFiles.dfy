/** Writing a file into memory and reading one from memory, step by step. */
module RiffFiles {
  import opened Arith
  import opened Bytes
  import opened RiffSpec
  import opened RiffRoundTrip

  /** A memory stream after a write at a position: what is there is replaced, and the stream grows at its end. */
  function Overwrite(buf: seq<Byte>, at: nat, bytes: seq<Byte>): seq<Byte>
    requires at <= |buf|
  {
    buf[..at] + bytes + if at + |bytes| < |buf| then buf[at + |bytes|..] else []
  }

  lemma {:induction false} OverwriteInside(a: seq<Byte>, b: seq<Byte>, c: seq<Byte>, bytes: seq<Byte>)
    requires |bytes| == |b|
    ensures Overwrite(a + b + c, |a|, bytes) == a + bytes + c
  {
    var buf := a + b + c;
    assert buf[..|a|] == a;
    if |c| > 0 {
      assert buf[|a| + |b|..] == c;
    }
  }

  /** Setting both size fields of a file turns the header made at the start into the final one. */
  lemma {:induction false} PatchSizes(m: Fmt, r: nat, d: nat, r': nat, d': nat, rest: seq<Byte>)
    requires FmtFits(m) && r <= MAX32 && d <= MAX32 && r' <= MAX32 && d' <= MAX32
    ensures |Header(m, r, d)| == |Header(m, r', d)| == HEADER_SIZE
    ensures Overwrite(Header(m, r, d) + rest, 4, Le32(r')) == Header(m, r', d) + rest
    ensures Overwrite(Header(m, r', d) + rest, HEADER_SIZE - 4, Le32(d')) == Header(m, r', d') + rest
  {
    hide Overwrite, Le32, FmtBytes;
    FmtReadsBack(m, []);
    Read32Back(r);
    Read32Back(r');
    Read32Back(d);
    Read32Back(d');
    Read32Back(16);
    var middle := WAVE + FMT + Le32(16) + FmtBytes(m) + DATA;
    assert Header(m, r, d) + rest == RIFF + Le32(r) + (middle + Le32(d) + rest);
    assert Header(m, r', d) + rest == RIFF + Le32(r') + (middle + Le32(d) + rest);
    OverwriteInside(RIFF, Le32(r), middle + Le32(d) + rest, Le32(r'));
    var front := RIFF + Le32(r') + middle;
    assert Header(m, r', d) + rest == front + Le32(d) + rest;
    assert Header(m, r', d') + rest == front + Le32(d') + rest;
    OverwriteInside(front, Le32(d), rest, Le32(d'));
  }

  lemma {:induction false} HeaderLength(m: Fmt, r: nat, d: nat)
    requires FmtFits(m) && r <= MAX32 && d <= MAX32
    ensures |Header(m, r, d)| == HEADER_SIZE
  {
    FmtReadsBack(m, []);
  }

  class RiffWriter {
    var buf: seq<Byte>
    var at: nat
    var fmt: Fmt
    var dataPos: nat
    var dataSize: nat

    /** The data given so far. */
    ghost var written: seq<Byte>

    /** Between the start and the end: the header with provisional sizes, then the data. */
    ghost predicate Writing()
      reads this
    {
      && FmtFits(fmt) && dataPos == HEADER_SIZE && dataSize == |written|
      && buf == Header(fmt, 28, 0) + written && at == |buf|
    }

    constructor ()
      ensures buf == [] && at == 0 && written == []
    {
      buf, at, dataPos, dataSize, written := [], 0, 0, 0, [];
      fmt := Fmt(0, 0, 0, 0, 0, 0);
    }

    method Write(bytes: seq<Byte>)
      requires at <= |buf|
      modifies this`buf, this`at
      ensures buf == Overwrite(old(buf), old(at), bytes) && at == old(at) + |bytes| <= |buf|
    {
      buf := Overwrite(buf, at, bytes);
      at := at + |bytes|;
    }

    /** A position behind the end stands for the end. */
    method SeekStart(offset: nat)
      modifies this`at
      ensures at == if offset <= |buf| then offset else |buf|
    {
      at := if offset <= |buf| then offset else |buf|;
    }

    method Append(bytes: seq<Byte>)
      requires at == |buf|
      modifies this`buf, this`at
      ensures buf == old(buf) + bytes && at == |buf|
    {
      assert buf[..at] == buf;
      assert buf + bytes + [] == buf + bytes;
      Write(bytes);
    }

    /** Refuses compressed formats; otherwise lays out the header with sizes still to be set. */
    method Start(f: Format) returns (ok: bool)
      requires Fits(f) && buf == [] && at == 0 && written == []
      modifies this
      ensures ok <==> Writable(f)
      ensures ok ==> Writing() && fmt == FmtOf(f) && written == []
      ensures !ok ==> buf == []
    {
      hide FmtOf, Le32, FmtBytes;
      if !Writable(f) {
        return false;
      }
      fmt := FmtOf(f);
      dataSize := 0;
      Append(RIFF);
      assert buf == RIFF;
      Append(Le32(28));
      Append(WAVE);
      AppendFmt();
      Append(DATA);
      Append(Le32(0));
      dataPos := at;
      HeaderLength(fmt, 28, 0);
      assert buf == Header(fmt, 28, 0);
      assert buf + [] == buf;
      ok := true;
    }

    method AppendFmt()
      requires at == |buf| && FmtFits(fmt)
      modifies this`buf, this`at
      ensures buf == old(buf) + FMT + Le32(16) + FmtBytes(fmt) && at == |buf|
    {
      hide Le16, Le32;
      Append(FMT);
      Append(Le32(16));
      ghost var before := buf;
      Append(Le16(fmt.tag));
      Append(Le16(fmt.channels));
      Append(Le32(fmt.sampleRate));
      Append(Le32(fmt.avgBytesPerSec));
      Append(Le16(fmt.blockAlign));
      Append(Le16(fmt.bitsPerSample));
      assert buf == before + FmtBytes(fmt);
    }

    method WriteRaw(bytes: seq<Byte>) returns (n: nat)
      requires Writing()
      modifies this`buf, this`at, this`dataSize, this`written
      ensures Writing() && n == |bytes| && written == old(written) + bytes
    {
      hide Header;
      if bytes == [] {
        assert written + bytes == written;
        return 0;
      }
      assert Header(fmt, 28, 0) + written + bytes == Header(fmt, 28, 0) + (written + bytes);
      Append(bytes);
      n := |bytes|;
      dataSize := dataSize + n;
      written := written + bytes;
    }

    /** Pads the data and sets the two sizes. */
    method Finish()
      requires Writing()
      modifies this`buf, this`at
      ensures buf == File(fmt, written)
    {
      hide Header, Overwrite, Le32, RiffSize, DataSize;
      var padding := Padding(dataSize);
      if padding > 0 {
        Append(Zeros(padding));
      }
      ghost var rest := written + Zeros(padding);
      assert buf == Header(fmt, 28, 0) + rest by {
        assert Header(fmt, 28, 0) + written + Zeros(padding) == Header(fmt, 28, 0) + rest;
        if padding == 0 {
          assert Zeros(padding) == [];
        }
      }
      PatchSizes(fmt, 28, 0, RiffSize(dataSize), DataSize(dataSize), rest);
      SeekStart(4);
      Write(Le32(RiffSize(dataSize)));
      SeekStart(dataPos - 4);
      Write(Le32(DataSize(dataSize)));
      assert buf == File(fmt, written) by {
        var h := Header(fmt, RiffSize(dataSize), DataSize(dataSize));
        assert h + rest == h + written + Zeros(padding);
      }
    }
  }

  class RiffReader {
    const data: seq<Byte>

    var pos: nat
    var remaining: nat
    var cursorInFrames: nat
    var fmt: Fmt
    var tag: nat

    constructor (data: seq<Byte>)
      ensures this.data == data && pos == 0 && remaining == 0 && cursorInFrames == 0
    {
      this.data := data;
      pos, remaining, cursorInFrames, tag := 0, 0, 0, 0;
      fmt := Fmt(0, 0, 0, 0, 0, 0);
    }

    /** Both chunks were found. */
    method Accept(m: Fmt, tag: nat, dataPos: nat, size: nat) returns (r: Opened)
      modifies this`pos, this`remaining, this`fmt, this`tag
      ensures r == OpenAt(data, m, tag, dataPos, size)
      ensures r.Opened? ==>
                && pos == r.dataPos <= |data| && remaining == r.dataSize && fmt == r.fmt
                && Readable(fmt, this.tag)
    {
      hide TotalFrames, Readable;
      if !Readable(m, tag) || dataPos > |data| {
        return Rejected;
      }
      ReadableCounts(m, tag);
      var dataSize := size;
      if dataSize == MAX32 {
        dataSize := |data| - dataPos;
      }
      pos, remaining, fmt, this.tag := dataPos, dataSize, m, tag;
      r := Opened(m, dataPos, dataSize, TotalFrames(m, tag, dataSize));
    }

    /** Goes over the chunks until the data chunk, at most so many of them. */
    method OpenFile(rounds: nat) returns (r: Opened)
      modifies this
      ensures r == Open(data, rounds)
      ensures r.Opened? ==>
                && pos == r.dataPos <= |data| && remaining == r.dataSize && fmt == r.fmt
                && Readable(fmt, tag) && cursorInFrames == 0
    {
      hide ReadFmtTail, ReadFmtChunk, SkipChunk, Read32, OpenAt, Readable, IsRiffWave;
      cursorInFrames := 0;
      if |data| < 4 {
        return Rejected;
      }
      if data[..4] in OTHERS {
        return Other;
      }
      if !IsRiffWave(data) {
        return Rejected;
      }
      pos := 12;
      var cursor: nat, found: Found, left: nat := 12, NoFmt, rounds;
      assert Open(data, rounds) == ReadChunks(data, pos, cursor, found, left);
      hide Open;
      while left > 0
        invariant cursorInFrames == 0
        invariant Open(data, rounds) == ReadChunks(data, pos, cursor, found, left)
      {
        if pos + 8 > |data| {
          return Rejected;
        }
        var id, size := data[pos..pos + 4], Read32(data[pos + 4..]);
        pos := pos + 8;
        cursor := cursor + 8;
        left := left - 1;
        if id == FMT {
          var c := ReadFmtChunk(data, size, pos, cursor);
          if c.BadFmt? {
            return Rejected;
          }
          found, pos, cursor := Got(c.fmt, c.tag), c.pos, c.cursor;
          continue;
        }
        if id == DATA {
          if found.NoFmt? {
            return Rejected;
          }
          r := Accept(found.fmt, found.tag, cursor, size);
          return;
        }
        var before := pos;
        var ok := Skip(id, size);
        if !ok {
          return Rejected;
        }
        cursor := cursor + pos - before;
      }
      r := OutOfRounds;
    }

    /** Moves past a chunk that is neither format nor data. */
    method Skip(id: seq<Byte>, size: nat) returns (ok: bool)
      modifies this`pos
      ensures SkipChunk(data, id, size, old(pos)) == if ok then Moved(pos) else Stuck
    {
      var skip := size + Padding(size);
      if id == FACT {
        if pos + 4 > |data| {
          return false;
        }
        pos := pos + 4;
        skip := (size - 4 + Padding(size)) % WRAP64;
      }
      if pos + skip > |data| {
        return false;
      }
      pos := pos + skip;
      ok := true;
    }

    /** The next bytes of the data, as many as asked for, as remain and as the file has. */
    method ReadRaw(n: nat) returns (bytes: seq<Byte>)
      requires pos <= |data| && Readable(fmt, tag)
      modifies this`pos, this`remaining, this`cursorInFrames
      ensures old(pos) <= pos <= |data| && bytes == data[old(pos)..pos]
      ensures |bytes| == Min(Min(n, old(remaining)), |data| - old(pos))
      ensures remaining == old(remaining) - |bytes|
      ensures cursorInFrames == old(cursorInFrames) + |bytes| / BytesPerFrame(fmt, tag)
    {
      hide BytesPerFrame;
      ghost var start := pos;
      var wanted := Min(n, remaining);
      bytes := [];
      if wanted == 0 {
        return;
      }
      var got := Min(wanted, |data| - pos);
      bytes := data[pos..pos + got];
      pos := pos + got;
      cursorInFrames := cursorInFrames + got / BytesPerFrame(fmt, tag);
      remaining := remaining - got;
    }
  }

  lemma {:induction false} ReadableCounts(m: Fmt, tag: nat)
    requires Readable(m, tag)
    ensures 0 < m.blockAlign && 0 < m.channels && 0 < BytesPerFrame(m, tag)
  {
  }

  // ---------------------------------------------------------------- there and back

  /** Pieces laid end to end. */
  function Joined(pieces: seq<seq<Byte>>): seq<Byte> {
    if pieces == [] then [] else Joined(pieces[..|pieces| - 1]) + pieces[|pieces| - 1]
  }

  /** A file of the given pieces, written call by call. */
  method WriteFile(f: Format, pieces: seq<seq<Byte>>) returns (ok: bool, file: seq<Byte>)
    requires Fits(f)
    ensures ok <==> Writable(f)
    ensures ok ==> file == File(FmtOf(f), Joined(pieces))
  {
    hide File, FmtOf;
    var w := new RiffWriter();
    ok := w.Start(f);
    if !ok {
      return false, [];
    }
    for i := 0 to |pieces|
      invariant fresh(w) && w.Writing() && w.fmt == FmtOf(f)
      invariant w.written == Joined(pieces[..i])
    {
      var n := w.WriteRaw(pieces[i]);
      assert pieces[..i + 1][..i] == pieces[..i];
    }
    assert pieces[..|pieces|] == pieces;
    w.Finish();
    file := w.buf;
  }

  /** Reads of the given sizes, call by call: what they give together is what RawReads says. */
  method ReadPieces(r: RiffReader, sizes: seq<nat>) returns (back: seq<Byte>)
    requires r.pos + r.remaining <= |r.data| && Readable(r.fmt, r.tag)
    modifies r`pos, r`remaining, r`cursorInFrames
    ensures back == RawReads(r.data, old(r.pos), old(r.remaining), sizes)
  {
    hide Readable, RawReads;
    back := [];
    ghost var whole := RawReads(r.data, r.pos, r.remaining, sizes);
    assert sizes[0..] == sizes && [] + whole == whole;
    for i := 0 to |sizes|
      invariant r.pos + r.remaining <= |r.data|
      invariant whole == back + RawReads(r.data, r.pos, r.remaining, sizes[i..])
    {
      ghost var pos, left := r.pos, r.remaining;
      FirstRawRead(r.data, pos, left, sizes[i..]);
      assert sizes[i..][1..] == sizes[i + 1..];
      var bytes := r.ReadRaw(sizes[i]);
      assert |bytes| == Min(sizes[i], left);
      ConcatThree(back, bytes, RawReads(r.data, r.pos, r.remaining, sizes[i + 1..]));
      back := back + bytes;
    }
    assert sizes[|sizes|..] == [];
    NoRawReads(r.data, r.pos, r.remaining);
    assert back + [] == back;
  }

  lemma {:induction false} ConcatThree(a: seq<Byte>, b: seq<Byte>, c: seq<Byte>)
    ensures a + (b + c) == a + b + c
  {
  }

  /**
   * Data written in pieces of any sizes, opened and read in pieces of any sizes that reach its end.
   * It opens exactly when the format can be written and read, and comes back as it was exactly when
   * its size fits the size field or is even.
   */
  method ThereAndBack(f: Format, pieces: seq<seq<Byte>>, sizes: seq<nat>, rounds: nat)
    returns (ok: bool, fmt: Fmt, back: seq<Byte>)
    requires Fits(f) && rounds >= 2
    ensures ok <==> Writable(f) && Readable(FmtOf(f), TagOf(FmtOf(f)))
    ensures ok && FieldsFit(f) ==> SameFormat(fmt, f)
    ensures ok && Sum(sizes) >= SizeSeen(|Joined(pieces)|) ==>
              (back == Joined(pieces) <==> |Joined(pieces)| < MAX32 || |Joined(pieces)| % 2 == 0)
    ensures ok && (|Joined(pieces)| < MAX32 || |Joined(pieces)| % 2 == 0) ==>
              back == Joined(pieces)[..Min(Sum(sizes), |Joined(pieces)|)]
  {
    hide Readable, FmtOf, File, Open, RawReads, Writable, Sum, Joined, SizeSeen, Fits, SameFormat, FieldsFit;
    fmt, back := Fmt(0, 0, 0, 0, 0, 0), [];
    var written, file := WriteFile(f, pieces);
    if !written {
      return false, fmt, back;
    }
    ghost var data := Joined(pieces);
    OpensIff(f, data, rounds);
    var r := new RiffReader(file);
    var o := r.OpenFile(rounds);
    ok := o.Opened?;
    if ok {
      fmt := r.fmt;
      back := ReadPieces(r, sizes);
      ReadsBack(f, data, sizes, rounds);
    }
  }

  lemma {:induction false} OpensIff(f: Format, data: seq<Byte>, rounds: nat)
    requires Fits(f) && rounds >= 2
    ensures var s := File(FmtOf(f), data);
            var o := Open(s, rounds);
            && (o.Opened? <==> Readable(FmtOf(f), TagOf(FmtOf(f))))
            && (o.Opened? && FieldsFit(f) ==> SameFormat(o.fmt, f))
            && (o.Opened? ==> o.dataPos + o.dataSize <= |s|)
  {
    hide Readable, FmtOf, Open, Header, TotalFrames, SameFormat;
    RoundTrip(f, data, rounds);
    FindsData(FmtOf(f), data, rounds);
  }

  /** The reads give the beginning of the data, and all of it if they reach far enough. */
  lemma {:induction false} ReadsBack(f: Format, data: seq<Byte>, sizes: seq<nat>, rounds: nat)
    requires Fits(f) && rounds >= 2 && Readable(FmtOf(f), TagOf(FmtOf(f)))
    ensures var s := File(FmtOf(f), data);
            var o := Open(s, rounds);
            && o.Opened? && o.dataPos + o.dataSize <= |s|
            && var back := RawReads(s, o.dataPos, o.dataSize, sizes);
               && (Sum(sizes) >= SizeSeen(|data|) ==> (back == data <==> |data| < MAX32 || |data| % 2 == 0))
               && (|data| < MAX32 || |data| % 2 == 0 ==> back == data[..Min(Sum(sizes), |data|)])
  {
    hide Readable, FmtOf, Open, Header, TotalFrames, RawReads, Sum;
    var s := File(FmtOf(f), data);
    RoundTrip(f, data, rounds);
    FindsData(FmtOf(f), data, rounds);
    if Sum(sizes) >= SizeSeen(|data|) {
      DataRoundTrip(f, data, sizes, rounds);
    }
    SizeSeenIff(|data|);
    if SizeSeen(|data|) == |data| {
      RawReadsGive(s, HEADER_SIZE, |data|, sizes);
      SlicePrefix(s, HEADER_SIZE, data, Min(Sum(sizes), |data|));
    }
  }

  lemma {:induction false} SlicePrefix(s: seq<Byte>, at: nat, data: seq<Byte>, n: nat)
    requires n <= |data| && at + |data| <= |s| && s[at..at + |data|] == data
    ensures s[at..at + n] == data[..n]
  {
    assert s[at..at + |data|][..n] == s[at..at + n];
  }
}
