/**
 * The audio content-block descriptor the record reader hands over with
 * every block: container format, sample encoding, bit depth, channel
 * count, sample rate, the byte step between consecutive sample frames
 * (the stride, which may exceed the packed frame size) and the number of
 * frames in the block.
 */
module AudioSpecs {
  import opened Bytes

  datatype AudioFormat = UndefinedFormat | Pcm | Opus

  /** How one sample is encoded; selects the WAVE format code. */
  datatype SampleEncoding = UndefinedEncoding | SignedInt | UnsignedInt | IeeeFloat | ALaw | MuLaw

  datatype AudioSpec = AudioSpec(
    format: AudioFormat,
    encoding: SampleEncoding,
    bitsPerSample: u16,
    channelCount: u16,
    sampleRate: u32,
    stride: u32,
    sampleCount: u32)

  /** The descriptor an extractor starts from, before any block arrived. */
  const Undefined: AudioSpec := AudioSpec(UndefinedFormat, UndefinedEncoding, 0, 0, 0, 0, 0)

  /**
   * Blocks with compatible descriptors can share one WAV file: same
   * format, encoding, bit depth, channel count and sample rate. Stride and
   * sample count may differ from block to block.
   */
  predicate Compatible(a: AudioSpec, b: AudioSpec)
  {
    && a.format == b.format
    && a.encoding == b.encoding
    && a.bitsPerSample == b.bitsPerSample
    && a.channelCount == b.channelCount
    && a.sampleRate == b.sampleRate
  }

  /** No PCM block fits a file opened for the undefined descriptor. */
  lemma UndefinedIncompatibleWithPcm(s: AudioSpec)
    requires s.format == Pcm
    ensures !Compatible(Undefined, s) && !Compatible(s, Undefined)
  {
  }

  lemma CompatibleIsEquivalence(a: AudioSpec, b: AudioSpec, c: AudioSpec)
    ensures Compatible(a, a)
    ensures Compatible(a, b) ==> Compatible(b, a)
    ensures Compatible(a, b) && Compatible(b, c) ==> Compatible(a, c)
  {
  }

  /** `(bitsPerSample + 7) / 8`: whole bytes per sample, rounding up. */
  function BytesPerSample(s: AudioSpec): (n: nat)
    ensures 8 * n >= s.bitsPerSample
    ensures 8 * n < s.bitsPerSample + 8
  {
    (s.bitsPerSample + 7) / 8
  }

  /**
   * Bytes of one sample frame, all channels, copied per frame. The 32-bit
   * product of the source never wraps, because both factors come from
   * 16-bit fields.
   */
  function FrameSize(s: AudioSpec): (n: nat)
    ensures n < U32
    ensures n == 0 <==> s.bitsPerSample == 0 || s.channelCount == 0
  {
    BytesPerSample(s) * s.channelCount
  }
}
