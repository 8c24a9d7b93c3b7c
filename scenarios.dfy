/**
 * Whole runs of the extractor against an operating system that refuses
 * nothing: a constructor, a few blocks and the destructor, with the bytes
 * of the one output file they leave behind.
 */
module Scenarios {
  import opened Bytes
  import opened AudioSpecs
  import opened DiskFiles
  import opened WavHeader
  import opened SampleCopy
  import opened AudioTrackExtractor

  /** 16 kHz mono signed 16-bit PCM, 1600 frames (0.1 s) per block, no padding. */
  const Mono16k: AudioSpec := AudioSpec(Pcm, SignedInt, 16, 1, 16000, 2, 1600)

  /** The same stream switched to two channels. */
  const Stereo16k: AudioSpec := AudioSpec(Pcm, SignedInt, 16, 2, 16000, 4, 800)

  /** The fields a reader sees in a freshly created 16 kHz mono header. */
  lemma Mono16kFields()
    ensures CreatedFields(Mono16k) == WavFields(0, 1, 1, 16000, 32000, 2, 16, 0)
  {
    assert BytesPerSample(Mono16k) == 2;
  }

  /** A packed block of `spec` is copied verbatim. */
  lemma Verbatim(spec: AudioSpec, audio: seq<byte>)
    requires spec == Mono16k || spec == Stereo16k
    requires |audio| == 3200
    ensures CopyInBounds(spec, audio) && BlockBytes(spec, audio) == audio
  {
    PackedBlockVerbatim(spec, audio);
  }

  /**
   * A block that needs a rollover re-creates the extractor's one output
   * path: the file is the block's header followed by the block's frames,
   * whatever it held before.
   */
  method RolloverBlock(x: ExtendedAudioTrackExtractor, t: real, spec: AudioSpec, audio: seq<byte>)
    requires x.Valid() && x.currentWavFile.replies == []
    requires spec.format == Pcm && CopyInBounds(spec, audio)
    requires NeedsRollover(x.fileAudioSpec, spec, x.currentWavFile.pos, |audio|)
    modifies x, x.currentWavFile, x.cumulativeCount
    ensures x.Valid() && x.fileAudioSpec == spec && x.currentWavFile.replies == []
    ensures x.currentWavFile.path == x.wavFilePath
    ensures x.currentWavFile.isOpen && x.currentWavFile.pos == |x.currentWavFile.data|
    ensures x.currentWavFile.data == HeaderImage(spec) + BlockBytes(spec, audio)
    ensures x.cumulativeCount.value == Add32(old(x.cumulativeCount.value), 1)
  {
    NoRefusals(5);
    NoRefusals(2);
    NoRefusals(CopiedCount(spec, audio));
    var ok, outcome := x.OnAudioRead(t, spec, audio, 0);
    SpliceAtEnd(HeaderImage(spec), BlockBytes(spec, audio));
  }

  /** A compatible block that fits below the cap is appended to the open file. */
  method NextBlock(x: ExtendedAudioTrackExtractor, t: real, spec: AudioSpec, audio: seq<byte>)
    requires x.Valid() && x.currentWavFile.replies == []
    requires x.currentWavFile.isOpen && x.currentWavFile.pos == |x.currentWavFile.data|
    requires spec.format == Pcm && CopyInBounds(spec, audio) && Compatible(x.fileAudioSpec, spec)
    requires |x.currentWavFile.data| + |audio| < MaxWavFileSize
    modifies x, x.currentWavFile, x.cumulativeCount
    ensures x.Valid() && x.fileAudioSpec == old(x.fileAudioSpec) && x.currentWavFile.replies == []
    ensures x.currentWavFile.isOpen && x.currentWavFile.pos == |x.currentWavFile.data|
    ensures x.currentWavFile.data == old(x.currentWavFile.data) + BlockBytes(spec, audio)
    ensures x.cumulativeCount.value == old(x.cumulativeCount.value)
  {
    ghost var d := x.currentWavFile.data;
    NoRefusals(CopiedCount(spec, audio));
    var ok, outcome := x.OnAudioRead(t, spec, audio, 0);
    SpliceAtEnd(d, BlockBytes(spec, audio));
  }

  /** The destructor finalises a file that starts with a header. */
  method Finish(x: ExtendedAudioTrackExtractor, spec: AudioSpec, body: seq<byte>) returns (wav: seq<byte>)
    requires x.currentWavFile.replies == [] && x.currentWavFile.isOpen
    requires x.currentWavFile.data == HeaderImage(spec) + body && x.currentWavFile.pos == |x.currentWavFile.data|
    requires |body| < U32 - 36
    modifies x.currentWavFile
    ensures ParseHeader(wav) == Some(CreatedFields(spec).(riffSize := 36 + |body|, dataSize := |body|))
    ensures |wav| == HeaderSize + |body| && wav[HeaderSize..] == body
  {
    NoRefusals(5);
    x.Dispose();
    wav := x.currentWavFile.data;
    FinalizedSizesExact(spec, body);
    FinalizedTouchesOnlySizes(HeaderImage(spec) + body, HeaderSize + |body|);
    assert wav[HeaderSize..] == body by {
      forall k | HeaderSize <= k < |wav| ensures wav[k] == body[k - HeaderSize] {
        assert wav[k] == (HeaderImage(spec) + body)[k];
      }
    }
  }

  /**
   * Three compatible blocks at 0.0, 0.1 and 0.2 s go into one file: its
   * header declares 9600 data bytes (riff size 9636), the samples follow
   * the header in order, and the caller's counter has gone up by one.
   */
  method OneSegment(a: seq<byte>, b: seq<byte>, c: seq<byte>, start: u32)
    returns (wav: seq<byte>, count: u32)
    requires |a| == 3200 && |b| == 3200 && |c| == 3200
    ensures ParseHeader(wav) == Some(WavFields(9636, 1, 1, 16000, 32000, 2, 16, 9600))
    ensures wav[HeaderSize..] == a + b + c
    ensures count == Add32(start, 1)
  {
    var counter := new Counter(start);
    var x := new ExtendedAudioTrackExtractor("out.w64", counter, []);
    Verbatim(Mono16k, a);
    Verbatim(Mono16k, b);
    Verbatim(Mono16k, c);
    CompatibleIsEquivalence(Mono16k, Mono16k, Mono16k);
    FirstPcmBlockRollsOver(Mono16k, 0, |a|);
    RolloverBlock(x, 0.0, Mono16k, a);
    NextBlock(x, 0.1, Mono16k, b);
    NextBlock(x, 0.2, Mono16k, c);
    assert HeaderImage(Mono16k) + a + b + c == HeaderImage(Mono16k) + (a + b + c);
    wav := Finish(x, Mono16k, a + b + c);
    count := counter.value;
    Mono16kFields();
  }

  /** The fields a reader sees in a freshly created 16 kHz stereo header. */
  lemma Stereo16kFields()
    ensures CreatedFields(Stereo16k) == WavFields(0, 1, 2, 16000, 64000, 4, 16, 0)
  {
    assert BytesPerSample(Stereo16k) == 2;
  }

  /**
   * A mono block followed by a stereo block: the channel change rolls
   * over, and since every rollover re-creates the same path, the file left
   * behind holds the stereo segment alone, while the caller's counter has
   * gone up by two.
   */
  method FormatChange(a: seq<byte>, b: seq<byte>, start: u32)
    returns (wav: seq<byte>, count: u32)
    requires |a| == 3200 && |b| == 3200
    ensures ParseHeader(wav) == Some(WavFields(3236, 1, 2, 16000, 64000, 4, 16, 3200))
    ensures wav[HeaderSize..] == b
    ensures count == Add32(Add32(start, 1), 1)
  {
    var counter := new Counter(start);
    var x := new ExtendedAudioTrackExtractor("out.w64", counter, []);
    Verbatim(Mono16k, a);
    Verbatim(Stereo16k, b);
    FirstPcmBlockRollsOver(Mono16k, 0, |a|);
    RolloverBlock(x, 0.0, Mono16k, a);
    assert !Compatible(Mono16k, Stereo16k);
    RolloverBlock(x, 0.1, Stereo16k, b);
    wav := Finish(x, Stereo16k, b);
    count := counter.value;
    Stereo16kFields();
  }
}
