/** A RIFF wave file: its bytes as the writer lays them out, and how the reader looks for its chunks. */
module RiffSpec {
  import opened Arith
  import opened Bytes
  import ImaFrameCount

  const TAG_ADPCM := 0x2
  const TAG_ALAW := 0x6
  const TAG_MULAW := 0x7
  const TAG_DVI_ADPCM := 0x11
  const TAG_EXTENSIBLE := 0xFFFE

  const MAX_SAMPLE_RATE := 384000
  const MAX_CHANNELS := 256
  const MAX_BITS_PER_SAMPLE := 64

  const MAX32 := 0xFFFF_FFFF

  const HEADER_SIZE := 44

  const RIFF: seq<Byte> := ['R' as int, 'I' as int, 'F' as int, 'F' as int]
  const WAVE: seq<Byte> := ['W' as int, 'A' as int, 'V' as int, 'E' as int]
  const FMT: seq<Byte> := ['f' as int, 'm' as int, 't' as int, ' ' as int]
  const DATA: seq<Byte> := ['d' as int, 'a' as int, 't' as int, 'a' as int]
  const FACT: seq<Byte> := ['f' as int, 'a' as int, 'c' as int, 't' as int]

  /** What a caller asks the writer for; every field has 32 bits. */
  datatype Format = Format(format: nat, channels: nat, sampleRate: nat, bitsPerSample: nat)

  predicate Fits(f: Format) {
    f.format <= MAX32 && f.channels <= MAX32 && f.sampleRate <= MAX32 && f.bitsPerSample <= MAX32
  }

  /** The writer refuses compressed formats. */
  predicate Writable(f: Format) {
    f.format != TAG_EXTENSIBLE && f.format != TAG_ADPCM && f.format != TAG_DVI_ADPCM
  }

  /** The fields of a format chunk. */
  datatype Fmt = Fmt(tag: nat, channels: nat, sampleRate: nat, avgBytesPerSec: nat, blockAlign: nat, bitsPerSample: nat)

  predicate FmtFits(m: Fmt) {
    && m.tag < 0x1_0000 && m.channels < 0x1_0000 && m.blockAlign < 0x1_0000 && m.bitsPerSample < 0x1_0000
    && m.sampleRate <= MAX32 && m.avgBytesPerSec <= MAX32
  }

  function FmtOf(f: Format): (m: Fmt)
    requires Fits(f)
    ensures FmtFits(m)
  {
    Fmt(f.format % 0x1_0000,
        f.channels % 0x1_0000,
        f.sampleRate,
        f.bitsPerSample * f.sampleRate * f.channels % WRAP / 8,
        f.channels * f.bitsPerSample % WRAP / 8 % 0x1_0000,
        f.bitsPerSample % 0x1_0000)
  }

  function FmtBytes(m: Fmt): seq<Byte>
    requires FmtFits(m)
  {
    Le16(m.tag) + Le16(m.channels) + Le32(m.sampleRate) + Le32(m.avgBytesPerSec) + Le16(m.blockAlign) + Le16(m.bitsPerSample)
  }

  function ReadFmt(s: seq<Byte>): (m: Fmt)
    requires |s| >= 16
    ensures FmtFits(m)
  {
    Fmt(Read16(s[0..]), Read16(s[2..]), Read32(s[4..]), Read32(s[8..]), Read16(s[12..]), Read16(s[14..]))
  }

  lemma {:induction false} At16(before: seq<Byte>, n: nat, after: seq<Byte>)
    requires n < 0x1_0000
    ensures Read16((before + Le16(n) + after)[|before|..]) == n
  {
    Read16Back(n);
    Read16Prefix(Le16(n), after);
    assert (before + Le16(n) + after)[|before|..] == Le16(n) + after;
  }

  lemma {:induction false} At32(before: seq<Byte>, n: nat, after: seq<Byte>)
    requires n <= MAX32
    ensures Read32((before + Le32(n) + after)[|before|..]) == n
  {
    hide Le32, Read32;
    Read32Back(n);
    Read32Prefix(Le32(n), after);
    assert (before + Le32(n) + after)[|before|..] == Le32(n) + after;
  }

  lemma {:induction false} FmtReadsBack(m: Fmt, rest: seq<Byte>)
    requires FmtFits(m)
    ensures |FmtBytes(m)| == 16 && ReadFmt(FmtBytes(m) + rest) == m
  {
    hide Le16, Le32, Read16, Read32;
    var s := FmtBytes(m) + rest;
    var a := Le16(m.tag);
    At16([], m.tag, s[2..]);
    assert s == [] + a + s[2..];
    var b := a + Le16(m.channels);
    At16(a, m.channels, s[4..]);
    assert s == b + s[4..];
    var c := b + Le32(m.sampleRate);
    At32(b, m.sampleRate, s[8..]);
    assert s == c + s[8..];
    var d := c + Le32(m.avgBytesPerSec);
    At32(c, m.avgBytesPerSec, s[12..]);
    assert s == d + s[12..];
    var e := d + Le16(m.blockAlign);
    At16(d, m.blockAlign, s[14..]);
    assert s == e + s[14..];
    At16(e, m.bitsPerSample, rest);
  }

  lemma {:induction false} Read16Prefix(a: seq<Byte>, b: seq<Byte>)
    requires |a| == 2
    ensures Read16(a + b) == Read16(a)
  {
  }

  lemma {:induction false} Read32Prefix(a: seq<Byte>, b: seq<Byte>)
    requires |a| == 4
    ensures Read32(a + b) == Read32(a)
  {
    assert (a + b)[2..] == a[2..] + b;
  }

  function Padding(size: nat): nat { size % 2 }

  function Cap32(n: nat): (r: nat)
    ensures r <= MAX32
  {
    if n > MAX32 then MAX32 else n
  }

  /** Size field of the whole file: everything after it, or the largest number. */
  function RiffSize(size: nat): (r: nat)
    ensures 36 <= r <= MAX32
  {
    Cap32(36 + size + Padding(size))
  }

  function DataSize(size: nat): (r: nat)
    ensures r <= MAX32
  {
    Cap32(size)
  }

  function Header(m: Fmt, riffSize: nat, dataSize: nat): (h: seq<Byte>)
    requires FmtFits(m) && riffSize <= MAX32 && dataSize <= MAX32
  {
    RIFF + Le32(riffSize) + WAVE + FMT + Le32(16) + FmtBytes(m) + DATA + Le32(dataSize)
  }

  function Zeros(n: nat): seq<Byte> { seq(n, _ => 0) }

  /** A finished file. */
  function File(m: Fmt, data: seq<Byte>): seq<Byte>
    requires FmtFits(m)
  {
    Header(m, RiffSize(|data|), DataSize(|data|)) + data + Zeros(Padding(|data|))
  }

  /** A file that was opened: its format, where its data starts and how long it is, and its frames. */
  datatype Opened = Opened(fmt: Fmt, dataPos: nat, dataSize: nat, total: nat) | Rejected | Other | OutOfRounds

  function BytesPerFrame(m: Fmt, tag: nat): nat {
    var n := if m.bitsPerSample % 8 == 0 then m.bitsPerSample * m.channels / 8 else m.blockAlign;
    if (tag == TAG_ALAW || tag == TAG_MULAW) && n != m.channels then 0 else n
  }

  function Share(n: nat, parts: nat): nat
    requires 0 < parts
  {
    n / parts
  }

  function AdpcmCount(size: nat, blockAlign: nat, channels: nat): nat
    requires 0 < blockAlign && 0 < channels
  {
    var whole := size / blockAlign;
    var blocks := if whole * blockAlign < size then whole + 1 else whole;
    Share((size - blocks * (6 * channels)) % WRAP64 * 2 % WRAP64, channels)
  }

  function TotalFrames(m: Fmt, tag: nat, size: nat): nat
    requires 0 < m.blockAlign && 0 < m.channels && 0 < BytesPerFrame(m, tag)
  {
    if tag == TAG_ADPCM then AdpcmCount(size, m.blockAlign, m.channels)
    else if tag == TAG_DVI_ADPCM then ImaFrameCount.FrameCount(size, m.blockAlign, m.channels)
    else size / BytesPerFrame(m, tag)
  }

  /** What the reader asks of a format; tag is the one that an extensible format stands for. */
  predicate Readable(m: Fmt, tag: nat) {
    && 0 < m.sampleRate <= MAX_SAMPLE_RATE
    && 0 < m.channels <= MAX_CHANNELS
    && 0 < m.bitsPerSample <= MAX_BITS_PER_SAMPLE
    && 0 < m.blockAlign
    && 0 < BytesPerFrame(m, tag)
    && ((tag == TAG_ADPCM || tag == TAG_DVI_ADPCM) ==> m.channels <= 2)
  }

  /** Both chunks were found: validate, and measure the data if its size field is the largest number. */
  function OpenAt(s: seq<Byte>, m: Fmt, tag: nat, dataPos: nat, dataSize: nat): Opened {
    if !Readable(m, tag) || dataPos > |s| then Rejected
    else
      var size := if dataSize == MAX32 then |s| - dataPos else dataSize;
      Opened(m, dataPos, size, TotalFrames(m, tag, size))
  }

  /** An int made of the low 32 bits of a number. */
  function Low32(n: int): int {
    var low := n % WRAP;
    if low < 0x8000_0000 then low else low - WRAP
  }

  /** Where a relative seek ends, unless it leaves the data. */
  datatype Moved = Moved(pos: nat) | Stuck

  function SeekBy(s: seq<Byte>, pos: nat, offset: int): Moved {
    if 0 <= pos + offset <= |s| then Moved(pos + offset) else Stuck
  }

  /** The format chunk just read: its fields, the tag it stands for, the stream position and the reader's own count. */
  datatype FmtRead = FmtRead(fmt: Fmt, tag: nat, pos: nat, cursor: nat) | BadFmt

  /** The optional tail of a format chunk of the given size. */
  function ReadFmtTail(s: seq<Byte>, m: Fmt, size: nat, pos: nat, cursor: nat): FmtRead
    requires pos <= |s| && size > 16
  {
    if pos + 2 > |s| then BadFmt
    else
      var extra := Read16(s[pos..]);
      var extended := extra > 0 && m.tag == TAG_EXTENSIBLE;
      if extended && (extra != 22 || pos + 2 + 22 > |s|) then BadFmt
      else if pos + 2 + extra > |s| then BadFmt
      else
        var tag := if extended then Read16(s[pos + 8..]) else if m.tag == TAG_EXTENSIBLE then 0 else m.tag;
        match SeekBy(s, pos + 2 + extra, Low32(size - 18 - extra))
        case Stuck => BadFmt
        case Moved(end) => FmtRead(m, tag, end, cursor + size - 16)
  }

  function ReadFmtChunk(s: seq<Byte>, size: nat, pos: nat, cursor: nat): FmtRead {
    if pos + 16 > |s| then BadFmt
    else
      var m := ReadFmt(s[pos..]);
      var r := if size > 16 then ReadFmtTail(s, m, size, pos + 16, cursor + 16)
               else FmtRead(m, if m.tag == TAG_EXTENSIBLE then 0 else m.tag, pos + 16, cursor + 16);
      if r.BadFmt? || r.pos + Padding(size) > |s| then BadFmt
      else r.(pos := r.pos + Padding(size), cursor := r.cursor + Padding(size))
  }

  /** Past any other chunk; a sample count is read first, whatever the size of its chunk. */
  function SkipChunk(s: seq<Byte>, id: seq<Byte>, size: nat, body: nat): (r: Moved)
    ensures r.Moved? ==> body <= r.pos <= |s|
  {
    if id == FACT && body + 4 > |s| then Stuck
    else
      var skip := if id == FACT then 4 + (size - 4 + Padding(size)) % WRAP64 else size + Padding(size);
      if body + skip > |s| then Stuck else Moved(body + skip)
  }

  datatype Found = NoFmt | Got(fmt: Fmt, tag: nat)

  /** The search for the data chunk, for so many chunks at most. */
  function ReadChunks(s: seq<Byte>, pos: nat, cursor: nat, found: Found, rounds: nat): Opened
    decreases rounds
  {
    if rounds == 0 then OutOfRounds
    else if pos + 8 > |s| then Rejected
    else
      var id := s[pos..pos + 4];
      var size := Read32(s[pos + 4..]);
      var body := pos + 8;
      if id == FMT then
        match ReadFmtChunk(s, size, body, cursor + 8)
        case BadFmt => Rejected
        case FmtRead(m, tag, end, next) => ReadChunks(s, end, next, Got(m, tag), rounds - 1)
      else if id == DATA then
        if found.NoFmt? then Rejected else OpenAt(s, found.fmt, found.tag, cursor + 8, size)
      else
        match SkipChunk(s, id, size, body)
        case Stuck => Rejected
        case Moved(end) => ReadChunks(s, end, cursor + end - pos, found, rounds - 1)
  }

  predicate IsRiffWave(s: seq<Byte>) {
    |s| >= 12 && s[..4] == RIFF && Read32(s[4..]) >= 36 && s[8..12] == WAVE
  }

  function Open(s: seq<Byte>, rounds: nat): Opened {
    if |s| < 4 then Rejected
    else if s[..4] in OTHERS then Other
    else if !IsRiffWave(s) then Rejected
    else ReadChunks(s, 12, 12, NoFmt, rounds)
  }

  /** Containers that are not modelled: big-endian RIFF, Wave64, RF64 and AIFF. */
  const OTHERS: set<seq<Byte>> := {
    ['R' as int, 'I' as int, 'F' as int, 'X' as int],
    ['r' as int, 'i' as int, 'f' as int, 'f' as int],
    ['R' as int, 'F' as int, '6' as int, '4' as int],
    ['F' as int, 'O' as int, 'R' as int, 'M' as int]
  }
}
