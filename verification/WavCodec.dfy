/** The writer and the reader of WAV buffers (packages/transcription/src/audio.ts). */
module WavCodec {
  import opened Common
  import opened Wav

  method Put(buf: array<Byte>, at: nat, bytes: seq<Byte>)
    requires at + |bytes| <= buf.Length
    modifies buf
    ensures buf[..at + |bytes|] == old(buf[..at]) + bytes
    ensures buf[at + |bytes|..] == old(buf[at + |bytes|..])
  {
    for i := 0 to |bytes|
      invariant buf[..at + i] == old(buf[..at]) + bytes[..i]
      invariant buf[at + |bytes|..] == old(buf[at + |bytes|..])
    {
      buf[at + i] := bytes[i];
      assert buf[..at + i + 1] == buf[..at + i] + [bytes[i]];
    }
  }

  /** The 44 bytes before the samples. */
  function HeadBytes(n: nat, rate: int): seq<Byte> {
    Header(36 + 2 * n) + (FMT + U32(16) + FormatBody(rate)) + (DATA + U32(2 * n))
  }

  lemma Assembled(head: seq<Byte>, format: seq<Byte>, data: seq<Byte>, n: nat)
    requires |format| == 16 && |data| == 2 * n < 0x1_0000_0000
    ensures ValidChunk(Chunk(FMT, format)) && ValidChunk(Chunk(DATA, data))
    ensures head + ChunkBytes(Chunk(FMT, format)) + ChunkBytes(Chunk(DATA, data)) ==
            head + (FMT + U32(16) + format) + (DATA + U32(2 * n)) + data
  {
    EvenChunk(FMT, format, 16);
    EvenChunk(DATA, data, 2 * n);
    Regroup(head, FMT + U32(16) + format, DATA + U32(2 * n), data);
  }

  lemma HeadIsPrefix(samples: seq<Sample>, rate: int)
    requires Encodable(samples, rate)
    ensures WaveBytes(samples, rate) == HeadBytes(|samples|, rate) + SampleBytes(samples)
  {
    Assembled(Header(36 + 2 * |samples|), FormatBody(rate), SampleBytes(samples), |samples|);
  }

  lemma EvenChunk(id: seq<Byte>, body: seq<Byte>, size: nat)
    requires ValidChunk(Chunk(id, body)) && size == |body| && size % 2 == 0
    ensures ChunkBytes(Chunk(id, body)) == id + U32(size) + body
  {
    var head := id + U32(size) + body;
    assert head + [] == head;
  }

  lemma Regroup(a: seq<Byte>, b: seq<Byte>, c: seq<Byte>, d: seq<Byte>)
    ensures a + b + (c + d) == a + b + c + d
  {
  }

  method WriteHead(buf: array<Byte>, n: nat, rate: int)
    requires buf.Length >= 44
    modifies buf
    ensures buf[..44] == HeadBytes(n, rate)
  {
    Put(buf, 0, RIFF);
    Put(buf, 4, U32(36 + 2 * n));
    Put(buf, 8, WAVE);
    assert buf[..12] == Header(36 + 2 * n);
    WriteFormat(buf, rate, Header(36 + 2 * n));
    Put(buf, 36, DATA);
    Put(buf, 40, U32(2 * n));
  }

  method WriteFormat(buf: array<Byte>, rate: int, ghost head: seq<Byte>)
    requires buf.Length >= 44 && buf[..12] == head
    modifies buf
    ensures buf[..36] == head + (FMT + U32(16) + FormatBody(rate))
  {
    Put(buf, 12, FMT);
    Put(buf, 16, U32(16));
    Put(buf, 20, U16(1));
    Put(buf, 22, U16(1));
    Put(buf, 24, U32(rate));
    Put(buf, 28, U32(rate * 2));
    Put(buf, 32, U16(2));
    Put(buf, 34, U16(16));
  }

  method WriteSamples(buf: array<Byte>, samples: seq<Sample>, ghost head: seq<Byte>)
    requires buf.Length == 44 + 2 * |samples| && buf[..44] == head
    modifies buf
    ensures buf[..] == head + SampleBytes(samples)
  {
    for i := 0 to |samples|
      invariant buf[..44 + 2 * i] == head + SampleBytesTo(samples, i)
    {
      Put(buf, 44 + 2 * i, I16(samples[i]));
    }
  }

  /** Refused exactly when a size does not fit its field. */
  method EncodeWav(samples: seq<Sample>, sampleRate: int) returns (r: Result<array<Byte>, Error>)
    ensures r.Ok? <==> Encodable(samples, sampleRate)
    ensures r.Ok? ==> fresh(r.value) && r.value[..] == WaveBytes(samples, sampleRate)
  {
    if !Encodable(samples, sampleRate) {
      return Err(OUT_OF_RANGE);
    }
    var buf := new Byte[44 + 2 * |samples|];
    WriteHead(buf, |samples|, sampleRate);
    WriteSamples(buf, samples, HeadBytes(|samples|, sampleRate));
    HeadIsPrefix(samples, sampleRate);
    r := Ok(buf);
  }

  method ReadSamples(buf: seq<Byte>, at: nat, n: nat) returns (samples: array<Sample>)
    requires at + 2 * n <= |buf|
    ensures fresh(samples) && samples[..] == SamplesAt(buf, at, n)
  {
    samples := new Sample[n];
    for i := 0 to n
      invariant forall k: nat :: k < i ==> samples[k] == SamplesAt(buf, at, n)[k]
    {
      samples[i] := ReadI16(buf, at + i * 2);
    }
  }

  method ParseWav(buf: seq<Byte>) returns (r: Result<Audio, Error>)
    ensures r == Parsed(buf)
  {
    if |buf| < 44 || Tag(buf, 0) != RIFF_TAG || Tag(buf, 8) != WAVE_TAG {
      return Err(NOT_RIFF);
    }
    var offset := 12;
    var format := DEFAULTS;
    var dataStart := -1;
    var dataLen := 0;
    while offset + 8 <= |buf|
      invariant 12 <= offset && dataStart == -1
      invariant Parsed(buf) == ParseFrom(buf, offset, format)
      decreases |buf| - offset
    {
      var size := ReadU32(buf, offset + 4);
      var body := offset + 8;
      if Tag(buf, offset) == FMT_TAG {
        if body + 16 > |buf| {
          return Err(OUT_OF_RANGE);
        }
        format := FormatAt(buf, body);
      } else if Tag(buf, offset) == DATA_TAG {
        dataStart := body;
        dataLen := Min(size, |buf| - body);
        break;
      }
      offset := body + size + size % 2;
    }
    if dataStart < 0 {
      return Err(NO_DATA);
    }
    if format.bits != 16 {
      return Err(UNSUPPORTED_BITS);
    }
    var samples := ReadSamples(buf, dataStart, dataLen / 2);
    r := Ok(Audio(format.sampleRate, format.channels, samples[..]));
  }
}
