/**
 * The 44-byte RIFF/WAVE header (canonical layout of the Multimedia
 * Programming Interface and Data Specifications 1.0: a RIFF chunk of form
 * WAVE holding a 16-byte "fmt " chunk and a "data" chunk), the image the
 * writer builds for a descriptor, a reader of that image, and the patch
 * the finaliser applies to the two size fields.
 */
module WavHeader {
  import opened Bytes
  import opened AudioSpecs
  import opened DiskFiles

  const HeaderSize: nat := 44

  /** The tag words, as the big-endian numbers the writer stores. */
  const RiffWord: u32 := 0x52494646
  const WaveWord: u32 := 0x57415645
  const FmtWord: u32 := 0x666d7420
  const DataWord: u32 := 0x64617461

  /** Each tag word is stored as its four ASCII characters (the "fmt " tag ends in a space). */
  lemma TagWordsAreAscii()
    ensures Be32(RiffWord) == Ascii("RIFF")
    ensures Be32(WaveWord) == Ascii("WAVE")
    ensures Be32(FmtWord) == Ascii("fmt ")
    ensures Be32(DataWord) == Ascii("data")
  {
  }

  /**
   * The WAVE format tag for an encoding (RFC 2361 registrations: 1 PCM,
   * 3 IEEE float, 6 A-law, 7 mu-law). IEEE float is tested first and every
   * other encoding falls back to PCM.
   */
  function FormatCode(e: SampleEncoding): (code: u16)
    ensures code == 3 <==> e == IeeeFloat
    ensures code == 6 <==> e == ALaw
    ensures code == 7 <==> e == MuLaw
    ensures code == 1 <==> e !in {IeeeFloat, ALaw, MuLaw}
  {
    if e == IeeeFloat then 3
    else if e == ALaw then 6
    else if e == MuLaw then 7
    else 1
  }

  /** sampleRate * channels * bytesPerSample, computed in 32-bit unsigned arithmetic. */
  function ByteRate(s: AudioSpec): (r: u32)
    ensures s.sampleRate * FrameSize(s) < U32 ==> r == s.sampleRate * FrameSize(s)
  {
    assert s.sampleRate * s.channelCount * BytesPerSample(s) == s.sampleRate * FrameSize(s);
    (s.sampleRate * s.channelCount * BytesPerSample(s)) % U32
  }

  /** channels * bytesPerSample, truncated to the 16-bit field. */
  function BlockAlign(s: AudioSpec): (r: u16)
    ensures FrameSize(s) < U16 ==> r == FrameSize(s)
  {
    (s.channelCount * BytesPerSample(s)) % U16
  }

  /** The RIFF chunk header: "RIFF", the riff size (zero until finalised), "WAVE". */
  function RiffPart(): (r: seq<byte>)
    ensures |r| == 12
  {
    Be32(RiffWord) + Le32(0) + Be32(WaveWord)
  }

  /** The "fmt " chunk: its tag, its size 16 and the six PCM format fields. */
  function FmtPart(s: AudioSpec): (r: seq<byte>)
    ensures |r| == 24
  {
    Be32(FmtWord) + Le32(16) + Le16(FormatCode(s.encoding)) + Le16(s.channelCount)
    + Le32(s.sampleRate) + Le32(ByteRate(s)) + Le16(BlockAlign(s)) + Le16(s.bitsPerSample)
  }

  /** The "data" chunk header: its tag and its size (zero until finalised). */
  function DataPart(): (r: seq<byte>)
    ensures |r| == 8
  {
    Be32(DataWord) + Le32(0)
  }

  /** The header image for a descriptor, size fields zeroed. */
  function HeaderImage(s: AudioSpec): (h: seq<byte>)
    ensures |h| == HeaderSize
  {
    RiffPart() + FmtPart(s) + DataPart()
  }

  /** A slice inside the middle piece of a concatenation is a slice of that piece. */
  lemma MiddleSlice(a: seq<byte>, b: seq<byte>, c: seq<byte>, i: nat, j: nat)
    requires i <= j <= |b|
    ensures (a + b + c)[|a| + i .. |a| + j] == b[i..j]
  {
    assert (a + b + c)[|a| + i .. |a| + j] == (a + b + c)[|a|..|a| + |b|][i..j];
    assert (a + b + c)[|a|..|a| + |b|] == b;
  }

  /** Where each field of the "fmt " chunk sits. */
  lemma FmtLayout(s: AudioSpec)
    ensures var f := FmtPart(s);
      && f[0..4] == Ascii("fmt ") && f[4..8] == Le32(16)
      && f[8..10] == Le16(FormatCode(s.encoding)) && f[10..12] == Le16(s.channelCount)
      && f[12..16] == Le32(s.sampleRate) && f[16..20] == Le32(ByteRate(s))
      && f[20..22] == Le16(BlockAlign(s)) && f[22..24] == Le16(s.bitsPerSample)
  {
    TagWordsAreAscii();
    var q0 := Be32(FmtWord) + Le32(16) + Le16(FormatCode(s.encoding)) + Le16(s.channelCount);
    var q1 := Le32(s.sampleRate) + Le32(ByteRate(s)) + Le16(BlockAlign(s)) + Le16(s.bitsPerSample);
    assert FmtPart(s) == q0 + q1;
  }

  /** Where each field of the header sits. */
  lemma HeaderLayout(s: AudioSpec)
    ensures var h := HeaderImage(s);
      && h[0..4] == Ascii("RIFF") && h[4..8] == [0, 0, 0, 0]
      && h[8..12] == Ascii("WAVE") && h[12..16] == Ascii("fmt ")
      && h[16..20] == Le32(16) && h[20..22] == Le16(FormatCode(s.encoding))
      && h[22..24] == Le16(s.channelCount) && h[24..28] == Le32(s.sampleRate)
      && h[28..32] == Le32(ByteRate(s)) && h[32..34] == Le16(BlockAlign(s))
      && h[34..36] == Le16(s.bitsPerSample) && h[36..40] == Ascii("data")
      && h[40..44] == [0, 0, 0, 0]
  {
    TagWordsAreAscii();
    FmtLayout(s);
    var r, f, d := RiffPart(), FmtPart(s), DataPart();
    var h := HeaderImage(s);
    assert h[..12] == r && h[36..] == d;
    assert Le32(0) == [0, 0, 0, 0];
    MiddleSlice(r, f, d, 0, 4);
    MiddleSlice(r, f, d, 4, 8);
    MiddleSlice(r, f, d, 8, 10);
    MiddleSlice(r, f, d, 10, 12);
    MiddleSlice(r, f, d, 12, 16);
    MiddleSlice(r, f, d, 16, 20);
    MiddleSlice(r, f, d, 20, 22);
    MiddleSlice(r, f, d, 22, 24);
  }

  /** The fields a reader of the format takes from a header. */
  datatype WavFields = WavFields(
    riffSize: u32,
    formatCode: u16,
    channelCount: u16,
    sampleRate: u32,
    byteRate: u32,
    blockAlign: u16,
    bitsPerSample: u16,
    dataSize: u32)

  datatype Option<T> = None | Some(value: T)

  /** Reads a canonical 44-byte header from the start of a file's bytes. */
  function ParseHeader(f: seq<byte>): Option<WavFields>
  {
    if |f| < HeaderSize || f[0..4] != Ascii("RIFF") || f[8..12] != Ascii("WAVE")
       || f[12..16] != Ascii("fmt ") || FromLe32(f[16..20]) != 16 || f[36..40] != Ascii("data")
    then None
    else Some(WavFields(
      FromLe32(f[4..8]), FromLe16(f[20..22]), FromLe16(f[22..24]), FromLe32(f[24..28]),
      FromLe32(f[28..32]), FromLe16(f[32..34]), FromLe16(f[34..36]), FromLe32(f[40..44])))
  }

  /** What the header created for `s` declares, before it is finalised. */
  function CreatedFields(s: AudioSpec): WavFields
  {
    WavFields(0, FormatCode(s.encoding), s.channelCount, s.sampleRate, ByteRate(s),
              BlockAlign(s), s.bitsPerSample, 0)
  }

  /**
   * A reader recovers channel count, sample rate and bit depth unchanged,
   * the format code and the derived fields, from the header image and
   * from any file that starts with it.
   */
  lemma HeaderRoundTrip(s: AudioSpec, body: seq<byte>)
    ensures ParseHeader(HeaderImage(s) + body) == Some(CreatedFields(s))
  {
    HeaderLayout(s);
    var f := HeaderImage(s) + body;
    assert f[..HeaderSize] == HeaderImage(s);
    Le16RoundTrip(FormatCode(s.encoding));
    Le16RoundTrip(s.channelCount);
    Le32RoundTrip(s.sampleRate);
    Le32RoundTrip(ByteRate(s));
    Le16RoundTrip(BlockAlign(s));
    Le16RoundTrip(s.bitsPerSample);
    Le32RoundTrip(16);
    Le32RoundTrip(0);
  }

  /** With 8-bit-or-narrower channel counts and depths, the block-align field never truncates. */
  lemma BlockAlignExact(s: AudioSpec)
    requires s.channelCount < 0x100 && s.bitsPerSample < 0x100
    ensures BlockAlign(s) == s.channelCount * BytesPerSample(s)
  {
    var b := BytesPerSample(s);
    assert b <= 32;
    assert s.channelCount * b <= s.channelCount * 32;
    WrapSmall(s.channelCount * b, U16);
  }

  // ----- finalising -----

  /**
   * `getPos() - 44` stored in a `uint32_t`: exact for a position from 44 up
   * to 2^32 + 43, and wrapped below 44, as after a finalisation that
   * stopped halfway and left the position at 4 or 40.
   */
  function DataSizeField(pos: nat): (r: u32)
    ensures HeaderSize <= pos < HeaderSize + U32 ==> r == pos - HeaderSize
    ensures pos < HeaderSize ==> r == U32 + pos - HeaderSize
  {
    (pos - HeaderSize) % U32
  }

  /** `36 + dataSize`, in 32-bit unsigned arithmetic. */
  function RiffSizeField(pos: nat): (r: u32)
    ensures DataSizeField(pos) < U32 - 36 ==> r == 36 + DataSizeField(pos)
    ensures DataSizeField(pos) >= U32 - 36 ==> r == DataSizeField(pos) + 36 - U32
  {
    (36 + DataSizeField(pos)) % U32
  }

  /** The bytes after the riff size is written at offset 4. */
  function RiffPatched(f: seq<byte>, pos: nat): (r: seq<byte>)
    ensures |f| >= HeaderSize ==> |r| == |f|
  {
    SpliceLength(f, 4, Le32(RiffSizeField(pos)));
    Splice(f, 4, Le32(RiffSizeField(pos)))
  }

  /** The bytes after both size fields are written, with the end position `pos` seen before patching. */
  function Finalized(f: seq<byte>, pos: nat): (r: seq<byte>)
    ensures |f| >= HeaderSize ==> |r| == |f|
  {
    SpliceLength(RiffPatched(f, pos), 40, Le32(DataSizeField(pos)));
    Splice(RiffPatched(f, pos), 40, Le32(DataSizeField(pos)))
  }

  /** Finalising a file of at least a header rewrites bytes 4..7 and 40..43 and nothing else. */
  lemma FinalizedTouchesOnlySizes(f: seq<byte>, pos: nat)
    requires |f| >= HeaderSize
    ensures var g := Finalized(f, pos);
      && |g| == |f|
      && g[4..8] == Le32(RiffSizeField(pos))
      && g[40..44] == Le32(DataSizeField(pos))
      && forall k :: 0 <= k < |f| && !(4 <= k < 8) && !(40 <= k < 44) ==> g[k] == f[k]
  {
    var g := Finalized(f, pos);
    var r := RiffPatched(f, pos);
    SpliceLength(f, 4, Le32(RiffSizeField(pos)));
    SpliceLength(r, 40, Le32(DataSizeField(pos)));
    forall k | 0 <= k < |f|
      ensures r[k] == if 4 <= k < 8 then Le32(RiffSizeField(pos))[k - 4] else f[k]
      ensures g[k] == if 40 <= k < 44 then Le32(DataSizeField(pos))[k - 40] else r[k]
    {
      SpliceAt(f, 4, Le32(RiffSizeField(pos)), k);
      SpliceAt(r, 40, Le32(DataSizeField(pos)), k);
    }
    assert g[4..8] == Le32(RiffSizeField(pos));
    assert g[40..44] == Le32(DataSizeField(pos));
  }

  /**
   * A header that differs from a readable one only in the two size fields
   * reads the same, apart from those sizes.
   */
  lemma ParseIgnoresSizes(f: seq<byte>, g: seq<byte>)
    requires ParseHeader(f).Some?
    requires |g| == |f|
    requires forall k :: 0 <= k < |f| && !(4 <= k < 8) && !(40 <= k < 44) ==> g[k] == f[k]
    ensures ParseHeader(g)
         == Some(ParseHeader(f).value.(riffSize := FromLe32(g[4..8]), dataSize := FromLe32(g[40..44])))
  {
    assert g[0..4] == f[0..4] && g[8..12] == f[8..12] && g[12..16] == f[12..16];
    assert g[16..20] == f[16..20] && g[20..22] == f[20..22] && g[22..24] == f[22..24];
    assert g[24..28] == f[24..28] && g[28..32] == f[28..32] && g[32..34] == f[32..34];
    assert g[34..36] == f[34..36] && g[36..40] == f[36..40];
  }

  /**
   * A created header followed by N bytes of samples, finalised at the end
   * position 44 + N, declares riffSize = (36 + N) mod 2^32 and
   * dataSize = N mod 2^32, and keeps every other field.
   */
  lemma FinalizedSizes(s: AudioSpec, samples: seq<byte>)
    ensures ParseHeader(Finalized(HeaderImage(s) + samples, HeaderSize + |samples|))
         == Some(CreatedFields(s).(riffSize := (36 + |samples|) % U32, dataSize := |samples| % U32))
  {
    var f := HeaderImage(s) + samples;
    var pos := HeaderSize + |samples|;
    var g := Finalized(f, pos);
    HeaderRoundTrip(s, samples);
    FinalizedTouchesOnlySizes(f, pos);
    ParseIgnoresSizes(f, g);
    Le32RoundTrip(RiffSizeField(pos));
    Le32RoundTrip(DataSizeField(pos));
    WrapSum(|samples|);
  }

  /** Wrapping the data size first and the sum again is wrapping the sum once. */
  lemma WrapSum(n: nat)
    ensures DataSizeField(HeaderSize + n) == n % U32
    ensures RiffSizeField(HeaderSize + n) == (36 + n) % U32
  {
    var q := n / U32;
    assert n == q * U32 + n % U32;
    assert 36 + n == q * U32 + (36 + n % U32);
  }

  /** The no-wrap case: below 2^32 - 36 sample bytes the sizes are exact. */
  lemma FinalizedSizesExact(s: AudioSpec, samples: seq<byte>)
    requires |samples| < U32 - 36
    ensures ParseHeader(Finalized(HeaderImage(s) + samples, HeaderSize + |samples|))
         == Some(CreatedFields(s).(riffSize := 36 + |samples|, dataSize := |samples|))
  {
    FinalizedSizes(s, samples);
    WrapSmall(|samples|, U32);
    WrapSmall(36 + |samples|, U32);
  }

  /**
   * The sizes wrap beyond 4 GiB: a file holding exactly 2^32 sample bytes,
   * which the 2^40-byte segment cap allows, declares a data size of 0.
   */
  lemma FinalizedSizesWrap(s: AudioSpec, samples: seq<byte>)
    requires |samples| == U32
    ensures ParseHeader(Finalized(HeaderImage(s) + samples, HeaderSize + |samples|))
         == Some(CreatedFields(s).(riffSize := 36, dataSize := 0))
  {
    FinalizedSizes(s, samples);
    WrapSmall(36, U32);
    WrapSmall(0, U32);
  }
}
