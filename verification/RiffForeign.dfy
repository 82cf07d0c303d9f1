/**
 * Files that this writer did not make: other chunks before and between the two that matter, and format
 * chunks with an extension. The reader finds the same format and the data where it is.
 */
module RiffForeign {
  import opened Bytes
  import opened RiffSpec

  /** A chunk: its name, its contents, and a byte of padding after an odd number of them. */
  datatype Chunk = Chunk(id: seq<Byte>, body: seq<Byte>)

  function ChunkBytes(c: Chunk): (s: seq<Byte>)
    requires |c.id| == 4 && |c.body| <= MAX32
    ensures |s| == 8 + |c.body| + Padding(|c.body|)
  {
    c.id + Le32(|c.body|) + c.body + Zeros(Padding(|c.body|))
  }

  /** A chunk that the reader passes over; a sample count has at least four bytes. */
  ghost predicate Passed(c: Chunk) {
    |c.id| == 4 && c.id != FMT && c.id != DATA && |c.body| <= MAX32 && (c.id == FACT ==> |c.body| >= 4)
  }

  ghost predicate AllPassed(cs: seq<Chunk>) { forall i :: 0 <= i < |cs| ==> Passed(cs[i]) }

  ghost function AllBytes(cs: seq<Chunk>): seq<Byte>
    requires AllPassed(cs)
  {
    if cs == [] then [] else ChunkBytes(cs[0]) + AllBytes(cs[1..])
  }

  /** The header of a chunk in the middle of a file. */
  lemma {:induction false} HeaderAt(a: seq<Byte>, c: Chunk, rest: seq<Byte>)
    requires |c.id| == 4 && |c.body| <= MAX32
    ensures var s := a + ChunkBytes(c) + rest;
            && |a| + 8 + |c.body| + Padding(|c.body|) <= |s|
            && s[|a|..|a| + 4] == c.id && Read32(s[|a| + 4..]) == |c.body|
            && s[|a| + 8..] == c.body + Zeros(Padding(|c.body|)) + rest
  {
    hide Le32, Read32, Zeros;
    var s := a + ChunkBytes(c) + rest;
    var size := Le32(|c.body|);
    Read32Back(|c.body|);
    var tail := c.body + Zeros(Padding(|c.body|)) + rest;
    assert s[|a| + 4..] == size + tail;
    Read32Prefix(size, tail);
    assert s[|a| + 8..] == tail;
  }

  lemma {:induction false} SkipsChunk(a: seq<Byte>, c: Chunk, rest: seq<Byte>, cursor: nat, found: Found, rounds: nat)
    requires Passed(c) && rounds > 0
    ensures var s, n := a + ChunkBytes(c) + rest, |ChunkBytes(c)|;
            ReadChunks(s, |a|, cursor, found, rounds) == ReadChunks(s, |a| + n, cursor + n, found, rounds - 1)
  {
    hide Read32, ReadChunks, SkipChunk, ChunkBytes;
    HeaderAt(a, c, rest);
    var s := a + ChunkBytes(c) + rest;
    SkipLength(s, c.id, |c.body|, |a| + 8);
    SkipStep(s, |a|, cursor, found, rounds, c.id, |c.body|);
  }

  /** One round of the search at another chunk. */
  lemma {:induction false} SkipStep(s: seq<Byte>, pos: nat, cursor: nat, found: Found, rounds: nat, id: seq<Byte>, size: nat)
    requires rounds > 0 && pos + 8 <= |s| && s[pos..pos + 4] == id && Read32(s[pos + 4..]) == size
    requires id != FMT && id != DATA
    ensures ReadChunks(s, pos, cursor, found, rounds)
            == match SkipChunk(s, id, size, pos + 8)
               case Stuck => Rejected
               case Moved(end) => ReadChunks(s, end, cursor + end - pos, found, rounds - 1)
  {
    hide Read32, ReadFmtChunk, OpenAt, SkipChunk;
  }

  lemma {:induction false} SkipLength(s: seq<Byte>, id: seq<Byte>, size: nat, body: nat)
    requires size <= MAX32 && (id == FACT ==> size >= 4) && body + size + Padding(size) <= |s|
    ensures SkipChunk(s, id, size, body) == Moved(body + size + Padding(size))
  {
  }

  /** Any number of other chunks is passed over. */
  lemma {:induction false} SkipsChunks(a: seq<Byte>, cs: seq<Chunk>, rest: seq<Byte>, cursor: nat, found: Found, rounds: nat)
    requires AllPassed(cs) && rounds >= |cs|
    ensures var s, n := a + AllBytes(cs) + rest, |AllBytes(cs)|;
            ReadChunks(s, |a|, cursor, found, rounds) == ReadChunks(s, |a| + n, cursor + n, found, rounds - |cs|)
    decreases |cs|
  {
    hide ReadChunks, ChunkBytes;
    if cs != [] {
      var first, more := ChunkBytes(cs[0]), AllBytes(cs[1..]);
      SkipsChunk(a, cs[0], more + rest, cursor, found, rounds);
      SkipsChunks(a + first, cs[1..], rest, cursor + |first|, found, rounds - 1);
      assert a + AllBytes(cs) + rest == a + first + (more + rest);
      assert a + first + more + rest == a + first + (more + rest);
    }
  }

  // ---------------------------------------------------------------- format chunks

  /** What may follow the six fields: nothing, or a counted extension and more bytes that nobody counts. */
  datatype Tail = NoTail | Tail(ext: seq<Byte>, junk: seq<Byte>)

  ghost predicate TailFits(m: Fmt, t: Tail) {
    t.Tail? ==> |t.ext| < 0x1_0000 && |t.junk| < 0x4000_0000 && (m.tag == TAG_EXTENSIBLE ==> |t.ext| == 0 || |t.ext| == 22)
  }

  function TailBytes(t: Tail): seq<Byte>
    requires t.Tail? ==> |t.ext| < 0x1_0000
  {
    if t.NoTail? then [] else Le16(|t.ext|) + t.ext + t.junk
  }

  /** An extensible format names the real one at the sixth byte of its extension. */
  function RealTag(m: Fmt, t: Tail): nat {
    if m.tag != TAG_EXTENSIBLE then m.tag
    else if t.Tail? && |t.ext| == 22 then Read16(t.ext[6..])
    else 0
  }

  ghost function FmtChunk(m: Fmt, t: Tail): Chunk
    requires FmtFits(m) && TailFits(m, t)
  {
    Chunk(FMT, FmtBytes(m) + TailBytes(t))
  }

  lemma {:induction false} TailReads(s: seq<Byte>, m: Fmt, t: Tail, pos: nat, cursor: nat)
    requires t.Tail? && TailFits(m, t) && pos + |TailBytes(t)| <= |s| && s[pos..pos + |TailBytes(t)|] == TailBytes(t)
    ensures var n := |TailBytes(t)|;
            n >= 2 && ReadFmtTail(s, m, 16 + n, pos, cursor) == FmtRead(m, RealTag(m, t), pos + n, cursor + n)
  {
    hide Le16, Read16;
    var n, e := |TailBytes(t)|, |t.ext|;
    var b := TailBytes(t);
    assert s[pos..][..n] == b;
    Read16Back(e);
    assert b == Le16(e) + (t.ext + t.junk);
    assert s[pos..] == b + s[pos + n..];
    assert s[pos..] == Le16(e) + (t.ext + t.junk + s[pos + n..]);
    Read16Prefix(Le16(e), t.ext + t.junk + s[pos + n..]);
    JunkLeft(|t.junk|);
    if e == 22 {
      assert s[pos + 8..] == t.ext[6..] + (t.junk + s[pos + n..]);
      TwoBytes(t.ext[6..], t.junk + s[pos + n..]);
    }
  }

  lemma {:induction false} TwoBytes(a: seq<Byte>, b: seq<Byte>)
    requires |a| >= 2
    ensures Read16(a + b) == Read16(a)
  {
  }

  lemma {:induction false} JunkLeft(n: nat)
    requires n < 0x4000_0000
    ensures Low32(n) == n
  {
  }

  /** A format chunk with or without an extension is read as its fields and the real format. */
  lemma {:induction false} ReadsFmt(a: seq<Byte>, m: Fmt, t: Tail, rest: seq<Byte>, cursor: nat, found: Found, rounds: nat)
    requires FmtFits(m) && TailFits(m, t) && rounds > 0
    ensures |FmtBytes(m)| == 16 && |FmtChunk(m, t).body| <= MAX32
    ensures var s, n := a + ChunkBytes(FmtChunk(m, t)) + rest, |ChunkBytes(FmtChunk(m, t))|;
            ReadChunks(s, |a|, cursor, found, rounds)
            == ReadChunks(s, |a| + n, cursor + n, Got(m, RealTag(m, t)), rounds - 1)
  {
    hide Read32, ReadFmtChunk, ReadChunks, FmtBytes, TailBytes, RealTag, ChunkBytes, Zeros;
    FmtReadsBack(m, []);
    TailLength(t);
    var c := FmtChunk(m, t);
    var s := a + ChunkBytes(c) + rest;
    HeaderAt(a, c, rest);
    var pad := Zeros(Padding(|c.body|));
    assert s[|a| + 8..] == FmtBytes(m) + TailBytes(t) + (pad + rest);
    ZerosLength(Padding(|c.body|));
    FmtBody(s, m, t, |a| + 8, cursor + 8, pad + rest);
    ChunkStep(s, |a|, cursor, found, rounds, |c.body|);
  }

  lemma {:induction false} TailLength(t: Tail)
    requires t.Tail? ==> |t.ext| < 0x1_0000 && |t.junk| < 0x4000_0000
    ensures |TailBytes(t)| < 0x4001_0002
  {
  }

  lemma {:induction false} ZerosLength(n: nat)
    ensures |Zeros(n)| == n
  {
  }

  /** One round of the search at a format chunk. */
  lemma {:induction false} ChunkStep(s: seq<Byte>, pos: nat, cursor: nat, found: Found, rounds: nat, size: nat)
    requires rounds > 0 && pos + 8 <= |s| && s[pos..pos + 4] == FMT && Read32(s[pos + 4..]) == size
    ensures ReadChunks(s, pos, cursor, found, rounds)
            == match ReadFmtChunk(s, size, pos + 8, cursor + 8)
               case BadFmt => Rejected
               case FmtRead(m, tag, end, next) => ReadChunks(s, end, next, Got(m, tag), rounds - 1)
  {
    hide Read32, ReadFmtChunk, OpenAt, SkipChunk;
  }

  lemma {:induction false} MiddleOf(s: seq<Byte>, pos: nat, a: seq<Byte>, b: seq<Byte>, c: seq<Byte>)
    requires pos <= |s| && s[pos..] == a + b + c
    ensures pos + |a| + |b| <= |s| && s[pos + |a|..pos + |a| + |b|] == b
  {
    forall i | 0 <= i < |b|
      ensures s[pos + |a| + i] == b[i]
    {
      assert s[pos..][|a| + i] == b[i];
    }
  }

  lemma {:induction false} FmtBody(s: seq<Byte>, m: Fmt, t: Tail, pos: nat, cursor: nat, after: seq<Byte>)
    requires FmtFits(m) && TailFits(m, t) && pos <= |s| && s[pos..] == FmtBytes(m) + TailBytes(t) + after
    requires Padding(|FmtBytes(m) + TailBytes(t)|) <= |after|
    ensures var size := |FmtBytes(m) + TailBytes(t)|;
            ReadFmtChunk(s, size, pos, cursor)
            == FmtRead(m, RealTag(m, t), pos + size + Padding(size), cursor + size + Padding(size))
  {
    hide ReadFmt, ReadFmtTail, FmtBytes, Le16, Read16;
    FmtReadsBack(m, TailBytes(t) + after);
    assert s[pos..] == FmtBytes(m) + (TailBytes(t) + after);
    if t.Tail? {
      var n := |TailBytes(t)|;
      MiddleOf(s, pos, FmtBytes(m), TailBytes(t), after);
      TailReads(s, m, t, pos + 16, cursor + 16);
    }
  }

  // ---------------------------------------------------------------- whole files

  /** A file with other chunks around its format. */
  ghost function ForeignFile(riffSize: nat, before: seq<Chunk>, m: Fmt, t: Tail, between: seq<Chunk>,
                             data: seq<Byte>, after: seq<Byte>): seq<Byte>
    requires riffSize <= MAX32 && |data| <= MAX32 && FmtFits(m) && TailFits(m, t) && |FmtChunk(m, t).body| <= MAX32
    requires AllPassed(before) && AllPassed(between)
  {
    RIFF + Le32(riffSize) + WAVE + AllBytes(before) + ChunkBytes(FmtChunk(m, t)) + AllBytes(between)
    + (DATA + Le32(|data|) + data + after)
  }

  /**
   * The reader opens such a file as it opens one without the other chunks: with the fields of the format
   * chunk, the format that an extension names, and the data where it is.
   */
  lemma {:induction false} OpensForeign(riffSize: nat, before: seq<Chunk>, m: Fmt, t: Tail, between: seq<Chunk>,
                                        data: seq<Byte>, after: seq<Byte>, rounds: nat)
    requires 36 <= riffSize <= MAX32 && |data| <= MAX32 && FmtFits(m) && TailFits(m, t) && |FmtChunk(m, t).body| <= MAX32
    requires AllPassed(before) && AllPassed(between) && rounds >= |before| + |between| + 2
    ensures var s := ForeignFile(riffSize, before, m, t, between, data, after);
            var pos := |s| - |after| - |data|;
            && pos >= 0 && s[pos..pos + |data|] == data
            && Open(s, rounds) == OpenAt(s, m, RealTag(m, t), pos, |data|)
  {
    hide ReadChunks, Read32, ChunkBytes, AllBytes, OpenAt, RealTag, FmtBytes, TailBytes, Le32, IsRiffWave;
    var s := ForeignFile(riffSize, before, m, t, between, data, after);
    var head, fmt, last := RIFF + Le32(riffSize) + WAVE, ChunkBytes(FmtChunk(m, t)), DATA + Le32(|data|) + data + after;
    var b, c := AllBytes(before), AllBytes(between);
    assert s == head + b + (fmt + c + last);
    assert s == (head + b) + fmt + (c + last);
    assert s == (head + b + fmt) + c + last;
    StartsRight(riffSize, s, b + fmt + c + last);
    SkipsChunks(head, before, fmt + c + last, 12, NoFmt, rounds);
    ReadsFmt(head + b, m, t, c + last, 12 + |b|, NoFmt, rounds - |before|);
    var tag := RealTag(m, t);
    SkipsChunks(head + b + fmt, between, last, 12 + |b| + |fmt|, Got(m, tag), rounds - |before| - 1);
    FindsLast(head + b + fmt + c, data, after, m, tag, rounds - |before| - |between| - 1);
  }

  lemma {:induction false} StartsRight(riffSize: nat, s: seq<Byte>, rest: seq<Byte>)
    requires 36 <= riffSize <= MAX32 && s == RIFF + Le32(riffSize) + WAVE + rest
    ensures |s| >= 12 && s[..4] !in OTHERS && IsRiffWave(s)
  {
    hide Le32, Read32;
    Read32Back(riffSize);
    assert s[4..] == Le32(riffSize) + (WAVE + rest);
    Read32Prefix(Le32(riffSize), WAVE + rest);
    assert s[..4] == RIFF && s[8..12] == WAVE;
    assert RIFF !in OTHERS by {
      assert RIFF[3] == 'F' as int && RIFF[0] == 'R' as int;
    }
  }

  lemma {:induction false} FindsLast(a: seq<Byte>, data: seq<Byte>, after: seq<Byte>, m: Fmt, tag: nat, rounds: nat)
    requires |data| <= MAX32 && rounds > 0
    ensures var s := a + (DATA + Le32(|data|) + data + after);
            && s[|a| + 8..|a| + 8 + |data|] == data
            && ReadChunks(s, |a|, |a|, Got(m, tag), rounds) == OpenAt(s, m, tag, |a| + 8, |data|)
  {
    hide Le32, Read32, OpenAt, ReadFmtChunk, SkipChunk;
    var s := a + (DATA + Le32(|data|) + data + after);
    Read32Back(|data|);
    assert s[|a| + 4..] == Le32(|data|) + (data + after);
    Read32Prefix(Le32(|data|), data + after);
    assert s[|a|..|a| + 4] == DATA;
    assert FMT != DATA by {
      assert FMT[0] != DATA[0];
    }
  }
}
