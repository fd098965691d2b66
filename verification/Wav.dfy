/** WAV files of 16-bit samples, written and read (packages/transcription/src/audio.ts). */
module Wav {
  import opened Common

  type Byte = x: int | 0 <= x < 0x100

  type Sample = x: int | -0x8000 <= x < 0x8000

  datatype Audio = Audio(sampleRate: int, channels: int, samples: seq<Sample>)

  datatype Error = NOT_RIFF | OUT_OF_RANGE | NO_DATA | UNSUPPORTED_BITS

  /** What the last `fmt ` chunk said; the reader starts from these defaults. */
  datatype Format = Format(sampleRate: int, channels: int, bits: int)

  const DEFAULTS := Format(16000, 1, 16)

  // ---------------------------------------------------------------- little-endian numbers and tags

  function U16(x: int): (r: seq<Byte>)
    ensures |r| == 2
  {
    [x % 0x100, x / 0x100 % 0x100]
  }

  function U32(x: int): (r: seq<Byte>)
    ensures |r| == 4
  {
    U16(x % 0x1_0000) + U16(x / 0x1_0000)
  }

  function I16(x: Sample): (r: seq<Byte>)
    ensures |r| == 2
  {
    U16(if x < 0 then x + 0x1_0000 else x)
  }

  function ReadU16(buf: seq<Byte>, at: nat): int
    requires at + 2 <= |buf|
  {
    var (low: int, high: int) := (buf[at], buf[at + 1]);
    low + 0x100 * high
  }

  function ReadU32(buf: seq<Byte>, at: nat): (r: int)
    requires at + 4 <= |buf|
    ensures r >= 0
  {
    ReadU16(buf, at) + 0x1_0000 * ReadU16(buf, at + 2)
  }

  function ReadI16(buf: seq<Byte>, at: nat): Sample
    requires at + 2 <= |buf|
  {
    var u := ReadU16(buf, at);
    if u >= 0x8000 then u - 0x1_0000 else u
  }

  /** The four characters at `at` as one number; the reader's ASCII decoding drops the highest bit of each. */
  function Tag(buf: seq<Byte>, at: nat): int
    requires at + 4 <= |buf|
  {
    var (a: int, b: int, c: int, d: int) := (buf[at], buf[at + 1], buf[at + 2], buf[at + 3]);
    a % 0x80 + 0x80 * (b % 0x80) + 0x4000 * (c % 0x80) + 0x20_0000 * (d % 0x80)
  }

  const RIFF: seq<Byte> := [0x52, 0x49, 0x46, 0x46]
  const WAVE: seq<Byte> := [0x57, 0x41, 0x56, 0x45]
  const FMT: seq<Byte> := [0x66, 0x6d, 0x74, 0x20]
  const DATA: seq<Byte> := [0x64, 0x61, 0x74, 0x61]

  const RIFF_TAG := Tag(RIFF, 0)
  const WAVE_TAG := Tag(WAVE, 0)
  const FMT_TAG := Tag(FMT, 0)
  const DATA_TAG := Tag(DATA, 0)

  // ---------------------------------------------------------------- the file

  /** The bytes of the first n samples. */
  function SampleBytesTo(samples: seq<Sample>, n: nat): (r: seq<Byte>)
    requires n <= |samples|
    ensures |r| == 2 * n
  {
    if n == 0 then [] else SampleBytesTo(samples, n - 1) + I16(samples[n - 1])
  }

  function SampleBytes(samples: seq<Sample>): (r: seq<Byte>)
    ensures |r| == 2 * |samples|
  {
    SampleBytesTo(samples, |samples|)
  }

  datatype Chunk = Chunk(id: seq<Byte>, body: seq<Byte>)

  predicate ValidChunk(c: Chunk) {
    |c.id| == 4 && |c.body| < 0x1_0000_0000
  }

  /** A chunk in the file: its name, its size, its body, and a padding byte after an odd body. */
  function ChunkBytes(c: Chunk): (r: seq<Byte>)
    requires ValidChunk(c)
    ensures |r| == 8 + |c.body| + |c.body| % 2
  {
    c.id + U32(|c.body|) + c.body + (if |c.body| % 2 == 1 then [0] else [])
  }

  function FormatBody(rate: int): (r: seq<Byte>)
    ensures |r| == 16
  {
    U16(1) + U16(1) + U32(rate) + U32(rate * 2) + U16(2) + U16(16)
  }

  /** The sizes the header has room for. */
  predicate Encodable(samples: seq<Sample>, rate: int) {
    36 + 2 * |samples| < 0x1_0000_0000 && 0 <= rate && rate * 2 < 0x1_0000_0000
  }

  function Header(size: int): (r: seq<Byte>)
    ensures |r| == 12
  {
    RIFF + U32(size) + WAVE
  }

  /** A mono file: the RIFF header, the format, the samples. */
  function WaveBytes(samples: seq<Sample>, rate: int): (r: seq<Byte>)
    requires Encodable(samples, rate)
    ensures |r| == 44 + 2 * |samples|
  {
    Header(36 + 2 * |samples|) + ChunkBytes(Chunk(FMT, FormatBody(rate))) + ChunkBytes(Chunk(DATA, SampleBytes(samples)))
  }

  // ---------------------------------------------------------------- reading

  function SamplesAt(buf: seq<Byte>, at: nat, n: nat): (r: seq<Sample>)
    requires at + 2 * n <= |buf|
    ensures |r| == n && forall i: nat :: i < n ==> r[i] == ReadI16(buf, at + 2 * i)
  {
    seq(n, i requires 0 <= i < n => ReadI16(buf, at + 2 * i))
  }

  /** Where the chunk after the one at `at` starts. */
  function Next(buf: seq<Byte>, at: nat): (r: nat)
    requires at + 8 <= |buf|
    ensures r >= at + 8
  {
    var size := ReadU32(buf, at + 4);
    at + 8 + size + size % 2
  }

  function FormatAt(buf: seq<Byte>, body: nat): Format
    requires body + 16 <= |buf|
  {
    Format(ReadU32(buf, body + 4), ReadU16(buf, body + 2), ReadU16(buf, body + 14))
  }

  function DataAt(buf: seq<Byte>, at: nat, format: Format): Result<Audio, Error>
    requires at + 8 <= |buf|
  {
    if format.bits != 16 then Err(UNSUPPORTED_BITS)
    else
      var body := at + 8;
      Ok(Audio(format.sampleRate, format.channels, SamplesAt(buf, body, Min(ReadU32(buf, at + 4), |buf| - body) / 2)))
  }

  /** Walk the chunks from `at` up to the first data chunk. */
  function ParseFrom(buf: seq<Byte>, at: nat, format: Format): Result<Audio, Error>
    decreases if at <= |buf| then |buf| - at else 0
  {
    if at + 8 > |buf| then Err(NO_DATA)
    else if Tag(buf, at) == FMT_TAG then
      if at + 24 > |buf| then Err(OUT_OF_RANGE) else ParseFrom(buf, Next(buf, at), FormatAt(buf, at + 8))
    else if Tag(buf, at) == DATA_TAG then DataAt(buf, at, format)
    else ParseFrom(buf, Next(buf, at), format)
  }

  function Parsed(buf: seq<Byte>): Result<Audio, Error> {
    if |buf| < 44 || Tag(buf, 0) != RIFF_TAG || Tag(buf, 8) != WAVE_TAG then Err(NOT_RIFF)
    else ParseFrom(buf, 12, DEFAULTS)
  }

  // ---------------------------------------------------------------- numbers read back

  lemma ReadsU16(x: int)
    requires 0 <= x < 0x1_0000
    ensures ReadU16(U16(x), 0) == x
  {
  }

  lemma ReadsU32(x: int)
    requires 0 <= x < 0x1_0000_0000
    ensures ReadU32(U32(x), 0) == x
  {
    var u := U32(x);
    ReadsU16(x % 0x1_0000);
    ReadsU16(x / 0x1_0000);
    assert ReadU16(u, 0) == ReadU16(U16(x % 0x1_0000), 0);
    assert ReadU16(u, 2) == ReadU16(U16(x / 0x1_0000), 0);
  }

  lemma ReadsI16(x: Sample)
    ensures ReadI16(I16(x), 0) == x
  {
    ReadsU16(if x < 0 then x + 0x1_0000 else x);
  }

  /** Numbers read from a file depend on their own bytes only. */
  lemma ReadsWithin(buf: seq<Byte>, at: nat, from: nat)
    requires from <= at <= |buf|
    ensures at + 2 <= |buf| ==> ReadU16(buf, at) == ReadU16(buf[from..], at - from) && ReadI16(buf, at) == ReadI16(buf[from..], at - from)
    ensures at + 4 <= |buf| ==> ReadU32(buf, at) == ReadU32(buf[from..], at - from) && Tag(buf, at) == Tag(buf[from..], at - from)
  {
  }

  // ---------------------------------------------------------------- parsing is local

  lemma SamplesWithin(buf: seq<Byte>, at: nat, n: nat, from: nat)
    requires from <= at && at + 2 * n <= |buf|
    ensures SamplesAt(buf, at, n) == SamplesAt(buf[from..], at - from, n)
  {
    var (a, b) := (SamplesAt(buf, at, n), SamplesAt(buf[from..], at - from, n));
    forall i: nat | i < n
      ensures a[i] == b[i]
    {
      ReadsWithin(buf, at + 2 * i, from);
      assert a[i] == ReadI16(buf, at + 2 * i);
      assert b[i] == ReadI16(buf[from..], at - from + 2 * i);
    }
  }

  lemma HeadWithin(buf: seq<Byte>, at: nat, from: nat)
    requires from <= at && at + 8 <= |buf|
    ensures Tag(buf, at) == Tag(buf[from..], at - from) && ReadU32(buf, at + 4) == ReadU32(buf[from..], at - from + 4)
    ensures Next(buf, at) - from == Next(buf[from..], at - from)
    ensures at + 24 <= |buf| ==> FormatAt(buf, at + 8) == FormatAt(buf[from..], at - from + 8)
  {
    ReadsWithin(buf, at, from);
    ReadsWithin(buf, at + 4, from);
    if at + 24 <= |buf| {
      ReadsWithin(buf, at + 12, from);
      ReadsWithin(buf, at + 10, from);
      ReadsWithin(buf, at + 22, from);
    }
  }

  lemma DataWithin(buf: seq<Byte>, at: nat, format: Format, from: nat)
    requires from <= at && at + 8 <= |buf|
    ensures DataAt(buf, at, format) == DataAt(buf[from..], at - from, format)
  {
    HeadWithin(buf, at, from);
    SamplesWithin(buf, at + 8, Min(ReadU32(buf, at + 4), |buf| - (at + 8)) / 2, from);
  }

  /** The walk ends here, with the data or with an error. */
  predicate Stops(buf: seq<Byte>, at: nat) {
    at + 8 > |buf| || Tag(buf, at) == DATA_TAG || (Tag(buf, at) == FMT_TAG && at + 24 > |buf|)
  }

  /** One step of the walk. */
  lemma ParseStep(buf: seq<Byte>, at: nat, format: Format)
    requires !Stops(buf, at)
    ensures ParseFrom(buf, at, format) == ParseFrom(buf, Next(buf, at), if Tag(buf, at) == FMT_TAG then FormatAt(buf, at + 8) else format)
  {
  }

  function Stopped(buf: seq<Byte>, at: nat, format: Format): Result<Audio, Error>
    requires Stops(buf, at)
  {
    if at + 8 > |buf| then Err(NO_DATA)
    else if Tag(buf, at) == DATA_TAG then DataAt(buf, at, format)
    else Err(OUT_OF_RANGE)
  }

  lemma ParseStops(buf: seq<Byte>, at: nat, format: Format)
    requires Stops(buf, at)
    ensures ParseFrom(buf, at, format) == Stopped(buf, at, format)
  {
    TagsDiffer();
  }

  lemma StopsWithin(buf: seq<Byte>, at: nat, format: Format, from: nat)
    requires from <= at && from <= |buf|
    ensures Stops(buf, at) == Stops(buf[from..], at - from)
    ensures Stops(buf, at) ==> Stopped(buf, at, format) == Stopped(buf[from..], at - from, format)
  {
    if at + 8 <= |buf| {
      HeadWithin(buf, at, from);
      DataWithin(buf, at, format, from);
    }
  }

  /** Parsing from a chunk boundary looks at nothing before it. */
  lemma {:induction false} ParsesSuffix(buf: seq<Byte>, at: nat, format: Format, from: nat)
    requires from <= at && from <= |buf|
    ensures ParseFrom(buf, at, format) == ParseFrom(buf[from..], at - from, format)
    decreases if at <= |buf| then |buf| - at else 0
  {
    StopsWithin(buf, at, format, from);
    if Stops(buf, at) {
      ParseStops(buf, at, format);
      ParseStops(buf[from..], at - from, format);
    } else {
      HeadWithin(buf, at, from);
      ParseStep(buf, at, format);
      ParseStep(buf[from..], at - from, format);
      ParsesSuffix(buf, Next(buf, at), if Tag(buf, at) == FMT_TAG then FormatAt(buf, at + 8) else format, from);
    }
  }

  lemma ReadsPrefix(a: seq<Byte>, b: seq<Byte>, at: nat)
    ensures at + 2 <= |a| ==> ReadU16(a + b, at) == ReadU16(a, at)
    ensures at + 4 <= |a| ==> ReadU32(a + b, at) == ReadU32(a, at) && Tag(a + b, at) == Tag(a, at)
  {
  }

  predicate Foreign(c: Chunk) {
    ValidChunk(c) && Tag(c.id, 0) != FMT_TAG && Tag(c.id, 0) != DATA_TAG
  }

  /** The format a chunk leaves behind. */
  function FormatAfter(c: Chunk, format: Format): Format
    requires ValidChunk(c) && (Tag(c.id, 0) == FMT_TAG ==> |c.body| >= 16)
  {
    if Tag(c.id, 0) == FMT_TAG then Format(ReadU32(c.body, 4), ReadU16(c.body, 2), ReadU16(c.body, 14)) else format
  }

  lemma ChunkHead(c: Chunk, rest: seq<Byte>)
    requires ValidChunk(c)
    ensures var buf := ChunkBytes(c) + rest;
            && Tag(buf, 0) == Tag(c.id, 0) && ReadU32(buf, 4) == |c.body|
            && buf[8..8 + |c.body|] == c.body && buf[8 + |c.body| + |c.body| % 2..] == rest
  {
    var buf := ChunkBytes(c) + rest;
    var size := U32(|c.body|);
    assert forall i :: 0 <= i < 4 ==> buf[i] == c.id[i];
    assert buf[4..8] == size;
    ReadsU32(|c.body|);
    assert forall i :: 0 <= i < 4 ==> buf[4 + i] == buf[4..8][i];
  }

  lemma ReadsPart(buf: seq<Byte>, from: nat, len: nat, at: nat)
    requires from + len <= |buf|
    ensures at + 2 <= len ==> ReadU16(buf, from + at) == ReadU16(buf[from..from + len], at)
    ensures at + 4 <= len ==> ReadU32(buf, from + at) == ReadU32(buf[from..from + len], at)
    ensures at + 2 <= len ==> ReadI16(buf, from + at) == ReadI16(buf[from..from + len], at)
  {
  }

  lemma FormatRead(c: Chunk, rest: seq<Byte>)
    requires ValidChunk(c) && |c.body| >= 16
    ensures var buf := ChunkBytes(c) + rest;
            ReadU32(buf, 12) == ReadU32(c.body, 4) && ReadU16(buf, 10) == ReadU16(c.body, 2) && ReadU16(buf, 22) == ReadU16(c.body, 14)
  {
    var buf := ChunkBytes(c) + rest;
    ChunkHead(c, rest);
    ReadsPart(buf, 8, |c.body|, 4);
    ReadsPart(buf, 8, |c.body|, 2);
    ReadsPart(buf, 8, |c.body|, 14);
  }

  /** A chunk other than data is stepped over, taking in its format if it has one. */
  lemma ParsesPast(c: Chunk, rest: seq<Byte>, format: Format)
    requires ValidChunk(c) && Tag(c.id, 0) != DATA_TAG && (Tag(c.id, 0) == FMT_TAG ==> |c.body| >= 16)
    ensures ParseFrom(ChunkBytes(c) + rest, 0, format) == ParseFrom(rest, 0, FormatAfter(c, format))
  {
    var buf := ChunkBytes(c) + rest;
    ChunkHead(c, rest);
    if |c.body| >= 16 {
      FormatRead(c, rest);
    }
    ParseStep(buf, 0, format);
    ParsesSuffix(buf, Next(buf, 0), FormatAfter(c, format), Next(buf, 0));
  }

  function AllBytes(cs: seq<Chunk>): seq<Byte>
    requires forall k :: 0 <= k < |cs| ==> ValidChunk(cs[k])
  {
    if cs == [] then [] else ChunkBytes(cs[0]) + AllBytes(cs[1..])
  }

  /** Chunks that may come before the data: complete formats and chunks the reader does not know. */
  ghost predicate Preamble(cs: seq<Chunk>) {
    forall k :: 0 <= k < |cs| ==> ValidChunk(cs[k]) && Tag(cs[k].id, 0) != DATA_TAG && (Tag(cs[k].id, 0) == FMT_TAG ==> |cs[k].body| >= 16)
  }

  lemma FirstParsed(cs: seq<Chunk>, rest: seq<Byte>, format: Format)
    requires Preamble(cs) && cs != []
    ensures Preamble(cs[1..]) && ValidChunk(cs[0])
    ensures ParseFrom(AllBytes(cs) + rest, 0, format) == ParseFrom(AllBytes(cs[1..]) + rest, 0, FormatAfter(cs[0], format))
  {
    ParsesPast(cs[0], AllBytes(cs[1..]) + rest, format);
    assert AllBytes(cs) + rest == ChunkBytes(cs[0]) + (AllBytes(cs[1..]) + rest);
  }

  lemma {:induction false} InsertedForeign(before: seq<Chunk>, c: Chunk, rest: seq<Byte>, format: Format)
    requires Preamble(before) && Foreign(c)
    ensures ParseFrom(AllBytes(before) + (ChunkBytes(c) + rest), 0, format) == ParseFrom(AllBytes(before) + rest, 0, format)
  {
    if before == [] {
      assert AllBytes(before) + (ChunkBytes(c) + rest) == ChunkBytes(c) + rest;
      assert AllBytes(before) + rest == rest;
      ParsesPast(c, rest, format);
    } else {
      FirstParsed(before, ChunkBytes(c) + rest, format);
      FirstParsed(before, rest, format);
      InsertedForeign(before[1..], c, rest, FormatAfter(before[0], format));
    }
  }

  lemma HeaderTags(size: int, rest: seq<Byte>)
    ensures Tag(Header(size) + rest, 0) == RIFF_TAG && Tag(Header(size) + rest, 8) == WAVE_TAG
  {
    var buf := Header(size) + rest;
    assert buf == RIFF + (U32(size) + WAVE + rest);
    ReadsPrefix(RIFF, U32(size) + WAVE + rest, 0);
    ReadsWithin(buf, 8, 8);
    assert buf[8..] == WAVE + rest;
    ReadsPrefix(WAVE, rest, 0);
  }

  lemma ParsesHeader(size: int, rest: seq<Byte>)
    requires |rest| >= 32
    ensures Parsed(Header(size) + rest) == ParseFrom(rest, 0, DEFAULTS)
  {
    HeaderTags(size, rest);
    ParsesAfter(Header(size) + rest, rest);
  }

  lemma ParsesAfter(buf: seq<Byte>, rest: seq<Byte>)
    requires |rest| >= 32 && |buf| == 12 + |rest| && buf[12..] == rest && Tag(buf, 0) == RIFF_TAG && Tag(buf, 8) == WAVE_TAG
    ensures Parsed(buf) == ParseFrom(rest, 0, DEFAULTS)
  {
    ParsesSuffix(buf, 12, DEFAULTS, 12);
  }

  /** A padded chunk the reader does not know, at any chunk boundary before the data, does not change what is read. */
  lemma ForeignChunksDoNotMatter(size: int, size': int, before: seq<Chunk>, c: Chunk, rest: seq<Byte>)
    requires Preamble(before) && Foreign(c) && |AllBytes(before)| + |rest| >= 32
    ensures Parsed(Header(size') + (AllBytes(before) + (ChunkBytes(c) + rest))) == Parsed(Header(size) + (AllBytes(before) + rest))
  {
    ParsesHeader(size', AllBytes(before) + (ChunkBytes(c) + rest));
    ParsesHeader(size, AllBytes(before) + rest);
    InsertedForeign(before, c, rest, DEFAULTS);
  }

  // ---------------------------------------------------------------- round trip

  lemma {:induction false} SampleBytesAt(samples: seq<Sample>, n: nat, i: nat)
    requires i < n <= |samples|
    ensures SampleBytesTo(samples, n)[2 * i..2 * i + 2] == I16(samples[i])
  {
    if i < n - 1 {
      SampleBytesAt(samples, n - 1, i);
      assert SampleBytesTo(samples, n)[2 * i..2 * i + 2] == SampleBytesTo(samples, n - 1)[2 * i..2 * i + 2];
    }
  }

  lemma SampleRead(samples: seq<Sample>, i: nat)
    requires i < |samples|
    ensures ReadI16(SampleBytes(samples), 2 * i) == samples[i]
  {
    SampleBytesAt(samples, |samples|, i);
    ReadsI16(samples[i]);
    ReadsPart(SampleBytes(samples), 2 * i, 2, 0);
  }

  lemma SampleReadAt(samples: seq<Sample>, buf: seq<Byte>, at: nat, i: nat)
    requires at + 2 * |samples| <= |buf| && buf[at..at + 2 * |samples|] == SampleBytes(samples) && i < |samples|
    ensures ReadI16(buf, at + 2 * i) == samples[i]
  {
    SampleRead(samples, i);
    ReadsPart(buf, at, 2 * |samples|, 2 * i);
  }

  lemma SamplesRead(samples: seq<Sample>, buf: seq<Byte>, at: nat)
    requires at + 2 * |samples| <= |buf| && buf[at..at + 2 * |samples|] == SampleBytes(samples)
    ensures SamplesAt(buf, at, |samples|) == samples
  {
    forall i: nat | i < |samples|
      ensures ReadI16(buf, at + 2 * i) == samples[i]
    {
      SampleReadAt(samples, buf, at, i);
    }
  }

  lemma FormatReadsBack(rate: int)
    requires 0 <= rate < 0x1_0000_0000
    ensures FormatAfter(Chunk(FMT, FormatBody(rate)), DEFAULTS) == Format(rate, 1, 16)
  {
    var body := FormatBody(rate);
    ReadsU32(rate);
    assert body[4..8] == U32(rate);
    assert forall i :: 0 <= i < 4 ==> body[4 + i] == body[4..8][i];
    assert body[2..4] == U16(1) && body[14..16] == U16(16);
    assert body[2] == body[2..4][0] && body[3] == body[2..4][1] && body[14] == body[14..16][0] && body[15] == body[14..16][1];
  }

  lemma TagsDiffer()
    ensures FMT_TAG != DATA_TAG
  {
    assert FMT[0] % 0x80 == 0x66 && DATA[0] % 0x80 == 0x64;
  }

  lemma DataParses(samples: seq<Sample>, format: Format)
    requires 2 * |samples| < 0x1_0000_0000 && format.bits == 16
    ensures ParseFrom(ChunkBytes(Chunk(DATA, SampleBytes(samples))), 0, format) ==
            Ok(Audio(format.sampleRate, format.channels, samples))
  {
    var data := Chunk(DATA, SampleBytes(samples));
    var buf := ChunkBytes(data);
    TagsDiffer();
    assert buf + [] == buf;
    ChunkHead(data, []);
    SamplesRead(samples, buf, 8);
  }

  /** What was written is read back: the same samples, the same rate, one channel. */
  lemma RoundTrip(samples: seq<Sample>, rate: int)
    requires Encodable(samples, rate)
    ensures Parsed(WaveBytes(samples, rate)) == Ok(Audio(rate, 1, samples))
  {
    var format, rest := Chunk(FMT, FormatBody(rate)), ChunkBytes(Chunk(DATA, SampleBytes(samples)));
    TagsDiffer();
    assert WaveBytes(samples, rate) == Header(36 + 2 * |samples|) + (ChunkBytes(format) + rest);
    ParsesHeader(36 + 2 * |samples|, ChunkBytes(format) + rest);
    ParsesPast(format, rest, DEFAULTS);
    FormatReadsBack(rate);
    DataParses(samples, Format(rate, 1, 16));
  }
}
