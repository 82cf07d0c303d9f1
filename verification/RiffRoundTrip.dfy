/** Reading a finished file gives back what was written. */
module RiffRoundTrip {
  import opened Arith
  import opened Bytes
  import opened RiffSpec

  function TagOf(m: Fmt): nat { if m.tag == TAG_EXTENSIBLE then 0 else m.tag }

  /** The size that the reader sees: a size field can hold any but the largest number. */
  function SizeSeen(size: nat): nat { if size < MAX32 then size else size + Padding(size) }

  lemma {:induction false} HeaderParts(m: Fmt, riffSize: nat, dataSize: nat, rest: seq<Byte>)
    requires FmtFits(m) && riffSize <= MAX32 && dataSize <= MAX32
    ensures var s := Header(m, riffSize, dataSize) + rest;
            && |Header(m, riffSize, dataSize)| == HEADER_SIZE
            && s[..4] == RIFF && Read32(s[4..]) == riffSize && s[8..12] == WAVE
            && s[12..16] == FMT && Read32(s[16..]) == 16 && ReadFmt(s[20..]) == m
            && s[36..40] == DATA && Read32(s[40..]) == dataSize
            && s[44..] == rest
  {
    hide Le32, Read32, ReadFmt, FmtBytes;
    var s := Header(m, riffSize, dataSize) + rest;
    Read32Back(riffSize);
    Read32Back(16);
    Read32Back(dataSize);
    FmtReadsBack(m, []);
    FmtReadsBack(m, s[36..]);
    assert s[4..] == Le32(riffSize) + s[8..];
    Read32Prefix(Le32(riffSize), s[8..]);
    assert s[16..] == Le32(16) + s[20..];
    Read32Prefix(Le32(16), s[20..]);
    assert s[20..] == FmtBytes(m) + s[36..];
    assert s[40..] == Le32(dataSize) + rest;
    Read32Prefix(Le32(dataSize), rest);
  }

  /** The reader meets the two chunks of the writer one after the other. */
  lemma {:induction false} FindsData(m: Fmt, data: seq<Byte>, rounds: nat)
    requires FmtFits(m) && rounds >= 2
    ensures var s := File(m, data);
            && |s| == HEADER_SIZE + |data| + Padding(|data|)
            && Open(s, rounds) == OpenAt(s, m, TagOf(m), HEADER_SIZE, DataSize(|data|))
  {
    hide Header, Read32, ReadFmt, OpenAt, ReadFmtTail, SkipChunk, RiffSize, DataSize;
    var s := File(m, data);
    var rest := data + Zeros(Padding(|data|));
    assert s == Header(m, RiffSize(|data|), DataSize(|data|)) + rest;
    HeaderParts(m, RiffSize(|data|), DataSize(|data|), rest);
    assert RIFF !in OTHERS by {
      assert RIFF[3] == 'F' as int && RIFF[0] == 'R' as int;
    }
    assert FMT != DATA by {
      assert FMT[0] != DATA[0];
    }
    assert ReadFmtChunk(s, 16, 20, 20) == FmtRead(m, TagOf(m), 36, 36);
    assert ReadChunks(s, 36, 36, Got(m, TagOf(m)), rounds - 1) == OpenAt(s, m, TagOf(m), HEADER_SIZE, DataSize(|data|));
  }

  /** The caller's numbers have the widths of the fields that hold them. */
  predicate FieldsFit(f: Format) { f.format < 0x1_0000 && f.channels < 0x1_0000 && f.bitsPerSample < 0x1_0000 }

  function FrameBits(f: Format): nat { f.channels * f.bitsPerSample }

  function SecondBits(f: Format): nat { FrameBits(f) * f.sampleRate }

  /**
   * The opened file says what the caller asked for: the four numbers themselves, the bytes of one
   * frame and of one second where frames are whole bytes and the numbers fit.
   */
  ghost predicate SameFormat(m: Fmt, f: Format) {
    && m.tag == f.format && m.channels == f.channels && m.sampleRate == f.sampleRate && m.bitsPerSample == f.bitsPerSample
    && (FrameBits(f) % 8 == 0 && FrameBits(f) < 8 * 0x1_0000 ==>
          && m.blockAlign * 8 == FrameBits(f)
          && (SecondBits(f) <= MAX32 ==> m.avgBytesPerSec == f.sampleRate * m.blockAlign))
  }

  /** Numbers that are wider than their fields are cut to the low 16 bits, and nothing else happens to them. */
  lemma {:induction false} FormatKept(f: Format)
    requires Fits(f)
    ensures FieldsFit(f) ==> SameFormat(FmtOf(f), f)
    ensures var m := FmtOf(f);
            && m.sampleRate == f.sampleRate
            && (f.format - m.tag) % 0x1_0000 == 0 && (f.channels - m.channels) % 0x1_0000 == 0
            && (f.bitsPerSample - m.bitsPerSample) % 0x1_0000 == 0
  {
    FmtIs(f);
    hide FmtOf, FrameBits, SecondBits;
    LowHalf(f.format);
    LowHalf(f.channels);
    LowHalf(f.bitsPerSample);
    var bits := FrameBits(f);
    if bits % 8 == 0 && bits < 8 * 0x1_0000 {
      WholeBytes(bits);
      if SecondBits(f) <= MAX32 {
        SecondIs(f);
        EightTimes(bits, bits / 8, f.sampleRate);
      }
    }
  }

  lemma {:induction false} FmtIs(f: Format)
    requires Fits(f)
    ensures FmtOf(f) == Fmt(f.format % 0x1_0000, f.channels % 0x1_0000, f.sampleRate, SecondBits(f) % WRAP / 8,
                            FrameBits(f) % WRAP / 8 % 0x1_0000, f.bitsPerSample % 0x1_0000)
  {
    assert f.bitsPerSample * f.sampleRate * f.channels == f.channels * f.bitsPerSample * f.sampleRate;
  }

  lemma {:induction false} SecondIs(f: Format)
    ensures SecondBits(f) == FrameBits(f) * f.sampleRate
  {
  }

  lemma {:induction false} LowHalf(n: nat)
    ensures (n - n % 0x1_0000) % 0x1_0000 == 0
    ensures n < 0x1_0000 ==> n % 0x1_0000 == n
  {
  }

  lemma {:induction false} WholeBytes(bits: nat)
    requires bits % 8 == 0 && bits < 8 * 0x1_0000
    ensures bits % WRAP / 8 % 0x1_0000 == bits / 8 && bits == 8 * (bits / 8)
  {
  }

  lemma {:induction false} EightTimes(bits: nat, bytes: nat, rate: nat)
    requires bits == 8 * bytes && bits * rate <= MAX32
    ensures bits * rate % WRAP / 8 == rate * bytes
  {
    var n := rate * bytes;
    assert bits * rate == 8 * n;
    SmallEighth(n);
  }

  lemma {:induction false} SmallEighth(n: nat)
    requires 8 * n <= MAX32
    ensures 8 * n % WRAP / 8 == n
  {
  }

  /**
   * A written file opens exactly when its format is one the reader takes, with the same format and
   * with its data where it was put. Its size is right unless it is odd and too large for the field:
   * then the padding is taken for data.
   */
  lemma {:induction false} RoundTrip(f: Format, data: seq<Byte>, rounds: nat)
    requires Fits(f) && rounds >= 2
    ensures var m := FmtOf(f);
            var s := File(m, data);
            && s[HEADER_SIZE..HEADER_SIZE + |data|] == data
            && (if Readable(m, TagOf(m)) then
                  Open(s, rounds) ==
                    Opened(m, HEADER_SIZE, SizeSeen(|data|), TotalFrames(m, TagOf(m), SizeSeen(|data|)))
                else Open(s, rounds) == Rejected)
    ensures var o := Open(File(FmtOf(f), data), rounds); o.Opened? && FieldsFit(f) ==> SameFormat(o.fmt, f)
  {
    hide Readable, TotalFrames, Header, FmtOf;
    var m := FmtOf(f);
    FormatKept(f);
    FindsData(m, data, rounds);
    var s := File(m, data);
    HeaderParts(m, RiffSize(|data|), DataSize(|data|), data + Zeros(Padding(|data|)));
    assert s[HEADER_SIZE..HEADER_SIZE + |data|] == data;
  }

  lemma {:induction false} SizeSeenIff(size: nat)
    ensures SizeSeen(size) == size <==> size < MAX32 || size % 2 == 0
  {
  }

  /** The size fields count what follows them, up to the largest number they can hold. */
  lemma {:induction false} SizesMatch(m: Fmt, data: seq<Byte>)
    requires FmtFits(m)
    ensures var s := File(m, data);
            && |s| >= HEADER_SIZE
            && Read32(s[4..]) == Cap32(|s| - 8)
            && Read32(s[HEADER_SIZE - 4..]) == Cap32(|data|)
  {
    hide Header, Read32, ReadFmt;
    var rest := data + Zeros(Padding(|data|));
    assert File(m, data) == Header(m, RiffSize(|data|), DataSize(|data|)) + rest;
    HeaderParts(m, RiffSize(|data|), DataSize(|data|), rest);
  }

  /** In terms of the caller's numbers: what the reader opens of that which was written. */
  ghost predicate Opens(f: Format) {
    && 0 < f.sampleRate <= 384000 && 0 < f.channels <= 256 && 0 < f.bitsPerSample <= 64
    && (f.format == 6 || f.format == 7 ==> f.bitsPerSample == 8)
  }

  /** Formats of whole bytes: the file can be opened if and only if the numbers are in range, and 8 bits for A-law and mu-law. */
  lemma {:induction false} OpensIffInRange(f: Format)
    requires Fits(f) && FieldsFit(f) && Writable(f) && f.bitsPerSample % 8 == 0
    ensures Readable(FmtOf(f), TagOf(FmtOf(f))) <==> Opens(f)
    ensures Opens(f) ==> 8 * BytesPerFrame(FmtOf(f), TagOf(FmtOf(f))) == FrameBits(f)
  {
    FmtIs(f);
    FormatKept(f);
    hide FmtOf, BytesPerFrame, FrameBits, SecondBits;
    var m := FmtOf(f);
    assert TagOf(m) == m.tag == f.format;
    if 0 < f.channels <= 256 && 0 < f.bitsPerSample <= 64 {
      FrameSize(f, m);
    }
  }

  lemma {:induction false} FrameSize(f: Format, m: Fmt)
    requires SameFormat(m, f) && 0 < f.channels <= 256 && 0 < f.bitsPerSample <= 64 && f.bitsPerSample % 8 == 0
    ensures m.blockAlign > 0
    ensures (BytesPerFrame(m, m.tag) > 0 <==> (f.format == 6 || f.format == 7 ==> f.bitsPerSample == 8))
    ensures BytesPerFrame(m, m.tag) > 0 ==> 8 * BytesPerFrame(m, m.tag) == FrameBits(f)
  {
    var bytes := f.bitsPerSample / 8;
    SmallFrame(f.channels, f.bitsPerSample);
    BytesOfFrame(f.channels, bytes);
    var n := f.channels * bytes;
    assert m.bitsPerSample * m.channels == FrameBits(f) == 8 * n;
    assert n == f.channels <==> bytes == 1;
  }

  lemma {:induction false} BytesOfFrame(channels: nat, bytes: nat)
    ensures channels * (8 * bytes) == 8 * (channels * bytes) && channels * (8 * bytes) / 8 == channels * bytes
    ensures channels > 0 && channels * bytes == channels ==> bytes == 1
  {
    assert channels * (8 * bytes) == 8 * (channels * bytes);
    if channels > 0 && channels * bytes == channels {
      MulSmallOne(channels, bytes);
    }
  }

  lemma {:induction false} MulSmallOne(n: nat, x: nat)
    requires n > 0 && n * x == n
    ensures x == 1
  {
    assert n * (x - 1) == 0;
  }

  lemma {:induction false} SmallFrame(channels: nat, bits: nat)
    requires 0 < channels <= 256 && 0 < bits <= 64 && bits % 8 == 0
    ensures 8 <= channels * bits < 8 * 0x1_0000 && channels * bits % 8 == 0
  {
    var bytes := bits / 8;
    assert bits == 8 * bytes;
    BytesOfFrame(channels, bytes);
    MulMono(channels, 256, bytes);
    MulMono(1, channels, bytes);
    Eights(channels * bytes);
  }

  lemma {:induction false} Eights(n: nat)
    requires 1 <= n <= 2048
    ensures 8 <= 8 * n < 8 * 0x1_0000 && 8 * n % 8 == 0
  {
  }

  /** The refusal of compressed formats looks at 32 bits and the file keeps 16 of them. */
  lemma {:induction false} CompressedIff(f: Format)
    requires Fits(f)
    ensures FmtOf(f).tag in {TAG_ADPCM, TAG_DVI_ADPCM, TAG_EXTENSIBLE} && Writable(f)
            <==> f.format >= 0x1_0000 && f.format % 0x1_0000 in {2, 0x11, 0xFFFE}
    ensures FieldsFit(f) ==> (Writable(f) <==> f.format !in {2, 0x11, 0xFFFE})
  {
    FmtIs(f);
    LowHalf(f.format);
  }

  /** Microsoft ADPCM: blocks of a header with two samples for every channel and two samples in every further byte. */
  lemma {:induction false} AdpcmBlocks(k: nat, blockAlign: nat, channels: nat)
    requires 1 <= channels <= 2 && blockAlign >= 7 * channels && k * blockAlign < WRAP64 / 4
    requires (blockAlign - 7 * channels) % channels == 0
    ensures AdpcmCount(k * blockAlign, blockAlign, channels) == k * (2 + 2 * ((blockAlign - 7 * channels) / channels))
  {
    var n := (blockAlign - 7 * channels) / channels;
    if channels == 1 {
      MonoBlocks(k, n, blockAlign);
    } else {
      StereoBlocks(k, n, blockAlign);
    }
  }

  lemma {:induction false} MonoBlocks(k: nat, n: nat, blockAlign: nat)
    requires blockAlign == 7 + n && k * blockAlign < WRAP64 / 4
    ensures AdpcmCount(k * blockAlign, blockAlign, 1) == k * (2 + 2 * n)
  {
    DivExact(blockAlign, k);
    var per := k * (1 + n);
    assert k * blockAlign == 6 * k + per;
    assert k * (2 + 2 * n) == 2 * per;
    NoWrap(6 * k + per, 6 * k, per);
  }

  lemma {:induction false} StereoBlocks(k: nat, n: nat, blockAlign: nat)
    requires blockAlign == 14 + 2 * n && k * blockAlign < WRAP64 / 4
    ensures AdpcmCount(k * blockAlign, blockAlign, 2) == k * (2 + 2 * n)
  {
    DivExact(blockAlign, k);
    var per := k * (1 + n);
    assert k * blockAlign == 12 * k + 2 * per;
    assert k * (2 + 2 * n) == 2 * per;
    NoWrap(12 * k + 2 * per, 12 * k, 2 * per);
  }

  lemma {:induction false} NoWrap(size: nat, headers: nat, rest: nat)
    requires size == headers + rest < WRAP64 / 4
    ensures (size - headers) % WRAP64 * 2 % WRAP64 == 2 * rest
  {
  }

  /** Data that is whole frames has as many frames for the reader as were written. */
  lemma {:induction false} FramesRoundTrip(m: Fmt, frames: nat)
    requires Readable(m, TagOf(m)) && TagOf(m) != TAG_ADPCM && TagOf(m) != TAG_DVI_ADPCM
    ensures TotalFrames(m, TagOf(m), frames * BytesPerFrame(m, TagOf(m))) == frames
  {
    hide BytesPerFrame;
    var n := BytesPerFrame(m, TagOf(m));
    DivExact(n, frames);
    assert n * frames == frames * n;
  }

  lemma {:induction false} MinOfSum(a: nat, b: nat, bound: nat)
    ensures Min(a + b, bound) == Min(a, bound) + Min(b, bound - Min(a, bound))
  {
  }

  /** What a series of raw reads gives. */
  function RawReads(s: seq<Byte>, pos: nat, remaining: nat, sizes: seq<nat>): seq<Byte>
    requires pos + remaining <= |s|
    decreases |sizes|
  {
    if sizes == [] then []
    else
      var n := Min(sizes[0], remaining);
      s[pos..pos + n] + RawReads(s, pos + n, remaining - n, sizes[1..])
  }

  function Sum(sizes: seq<nat>): nat { if sizes == [] then 0 else sizes[0] + Sum(sizes[1..]) }

  lemma {:induction false} FirstRawRead(s: seq<Byte>, pos: nat, remaining: nat, sizes: seq<nat>)
    requires pos + remaining <= |s| && sizes != []
    ensures Sum(sizes) == sizes[0] + Sum(sizes[1..])
    ensures var n := Min(sizes[0], remaining);
            RawReads(s, pos, remaining, sizes) == s[pos..pos + n] + RawReads(s, pos + n, remaining - n, sizes[1..])
  {
    hide Min;
  }

  lemma {:induction false} NoRawReads(s: seq<Byte>, pos: nat, remaining: nat)
    requires pos + remaining <= |s|
    ensures RawReads(s, pos, remaining, []) == s[pos..pos + Min(Sum([]), remaining)]
  {
  }

  /** Raw reads of any sizes give the data in order, and no more than there is. */
  lemma {:induction false} RawReadsGive(s: seq<Byte>, pos: nat, remaining: nat, sizes: seq<nat>)
    requires pos + remaining <= |s|
    ensures RawReads(s, pos, remaining, sizes) == s[pos..pos + Min(Sum(sizes), remaining)]
    decreases |sizes|
  {
    hide Min, RawReads, Sum;
    if sizes == [] {
      NoRawReads(s, pos, remaining);
    } else {
      FirstRawRead(s, pos, remaining, sizes);
      var n := Min(sizes[0], remaining);
      RawReadsGive(s, pos + n, remaining - n, sizes[1..]);
      MinOfSum(sizes[0], Sum(sizes[1..]), remaining);
      Adjacent(s, pos, pos + n, pos + Min(Sum(sizes), remaining));
    }
  }

  lemma {:induction false} Adjacent(s: seq<Byte>, a: nat, b: nat, c: nat)
    requires a <= b <= c <= |s|
    ensures s[a..b] + s[b..c] == s[a..c]
  {
  }

  /** Written, opened and read raw in pieces of any sizes, the data comes out as it went in. */
  lemma {:induction false} DataRoundTrip(f: Format, data: seq<Byte>, sizes: seq<nat>, rounds: nat)
    requires Fits(f) && Readable(FmtOf(f), TagOf(FmtOf(f))) && rounds >= 2
    requires Sum(sizes) >= SizeSeen(|data|)
    ensures var s := File(FmtOf(f), data);
            var r := Open(s, rounds);
            && r.Opened? && r.dataPos + r.dataSize <= |s|
            && (RawReads(s, r.dataPos, r.dataSize, sizes) == data <==> |data| < MAX32 || |data| % 2 == 0)
  {
    hide Header, FmtOf, Readable, TotalFrames, Open;
    RoundTrip(f, data, rounds);
    FindsData(FmtOf(f), data, rounds);
    SizeSeenIff(|data|);
    var s := File(FmtOf(f), data);
    RawReadsGive(s, HEADER_SIZE, SizeSeen(|data|), sizes);
    assert |RawReads(s, HEADER_SIZE, SizeSeen(|data|), sizes)| == SizeSeen(|data|);
  }
}
