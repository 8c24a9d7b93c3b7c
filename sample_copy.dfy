/**
 * What the strided sample copy reads: the source offset of each frame,
 * kept in a 32-bit unsigned variable; how many frames the loop copies
 * before the sample count or the (32-bit) buffer size stops it; and the
 * bytes it appends to the file.
 */
module SampleCopy {
  import opened Bytes
  import opened AudioSpecs

  /** The source offset of frame `i`: 0, then `stride` added and wrapped per frame. */
  function SrcOffset(stride: u32, i: nat): u32
  {
    if i == 0 then 0 else Add32(SrcOffset(stride, i - 1), stride)
  }

  /** Frame `j` starts below `size`. */
  predicate StartsInside(stride: u32, size: u32, j: nat)
  {
    SrcOffset(stride, j) < size
  }

  /**
   * The number of frames copied when the loop is at frame `i`: it stops at
   * the first frame that reaches `count` or whose offset is not below
   * `size`, the buffer size cast to 32 bits.
   */
  function CopiedFrom(stride: u32, size: u32, count: u32, i: nat): (n: nat)
    requires i <= count
    ensures i <= n <= count
    ensures n == count || SrcOffset(stride, n) >= size
    ensures forall j :: i <= j < n ==> StartsInside(stride, size, j)
    decreases count - i
  {
    if i == count || SrcOffset(stride, i) >= size then i
    else CopiedFrom(stride, size, count, i + 1)
  }

  /** The number of frames the copy writes for one block. */
  function CopiedCount(s: AudioSpec, audio: seq<byte>): nat
  {
    CopiedFrom(s.stride, |audio| % U32, s.sampleCount, 0)
  }

  /**
   * Every frame the loop writes lies inside the buffer. The loop checks only
   * that a frame's start is inside, so a short last frame would be read past
   * the end of the buffer; callers must rule that out.
   */
  predicate CopyInBounds(s: AudioSpec, audio: seq<byte>)
  {
    forall i :: 0 <= i < CopiedCount(s, audio) ==> FrameInside(s, audio, i)
  }

  /** Frame `i` ends inside the buffer. */
  predicate FrameInside(s: AudioSpec, audio: seq<byte>, i: nat)
  {
    SrcOffset(s.stride, i) + FrameSize(s) <= |audio|
  }

  /** The bytes of the first `n` frames copied, padding dropped. */
  function CopiedBytes(s: AudioSpec, audio: seq<byte>, n: nat): (r: seq<byte>)
    requires n <= CopiedCount(s, audio) && CopyInBounds(s, audio)
  {
    if n == 0 then []
    else
      assert FrameInside(s, audio, n - 1);
      var off := SrcOffset(s.stride, n - 1);
      CopiedBytes(s, audio, n - 1) + audio[off .. off + FrameSize(s)]
  }

  /** Each copied frame contributes exactly one frame size of bytes. */
  lemma {:induction false} CopiedBytesLength(s: AudioSpec, audio: seq<byte>, n: nat)
    requires n <= CopiedCount(s, audio) && CopyInBounds(s, audio)
    ensures |CopiedBytes(s, audio, n)| == n * FrameSize(s)
  {
    if n > 0 {
      CopiedBytesLength(s, audio, n - 1);
      assert FrameInside(s, audio, n - 1);
      var off := SrcOffset(s.stride, n - 1);
      assert |audio[off .. off + FrameSize(s)]| == FrameSize(s);
      assert (n - 1) * FrameSize(s) + FrameSize(s) == n * FrameSize(s);
    }
  }

  /** One turn of the copy loop: frame `i` starts inside the buffer, so it is copied whole. */
  lemma CopyStep(s: AudioSpec, audio: seq<byte>, i: nat)
    requires CopyInBounds(s, audio)
    requires i < s.sampleCount && CopiedFrom(s.stride, |audio| % U32, s.sampleCount, i) == CopiedCount(s, audio)
    requires SrcOffset(s.stride, i) < |audio| % U32
    ensures i < CopiedCount(s, audio)
    ensures CopiedFrom(s.stride, |audio| % U32, s.sampleCount, i + 1) == CopiedCount(s, audio)
    ensures SrcOffset(s.stride, i) + FrameSize(s) <= |audio|
    ensures SrcOffset(s.stride, i + 1) == Add32(SrcOffset(s.stride, i), s.stride)
    ensures CopiedBytes(s, audio, i + 1)
      == CopiedBytes(s, audio, i) + audio[SrcOffset(s.stride, i) .. SrcOffset(s.stride, i) + FrameSize(s)]
  {
    var size := |audio| % U32;
    assert CopiedFrom(s.stride, size, s.sampleCount, i) == CopiedFrom(s.stride, size, s.sampleCount, i + 1);
    assert FrameInside(s, audio, i);
  }

  /** The copy loop leaves after the last frame or at the first frame that starts past the end. */
  lemma CopyEnd(s: AudioSpec, audio: seq<byte>, i: nat)
    requires i <= s.sampleCount && CopiedFrom(s.stride, |audio| % U32, s.sampleCount, i) == CopiedCount(s, audio)
    requires i == s.sampleCount || SrcOffset(s.stride, i) >= |audio| % U32
    ensures i == CopiedCount(s, audio)
  {
  }

  /** The bytes the copy writes for one block. */
  function BlockBytes(s: AudioSpec, audio: seq<byte>): (r: seq<byte>)
    requires CopyInBounds(s, audio)
  {
    CopiedBytes(s, audio, CopiedCount(s, audio))
  }

  /** Byte `j` of copied frame `k` is byte `j` of source frame `k`: frames in order, each from its own offset. */
  lemma {:induction false} CopiedBytesAt(s: AudioSpec, audio: seq<byte>, n: nat, k: nat, j: nat)
    requires n <= CopiedCount(s, audio) && CopyInBounds(s, audio)
    requires k < n && j < FrameSize(s)
    ensures k * FrameSize(s) + j < |CopiedBytes(s, audio, n)|
    ensures SrcOffset(s.stride, k) + j < |audio|
    ensures CopiedBytes(s, audio, n)[k * FrameSize(s) + j] == audio[SrcOffset(s.stride, k) + j]
  {
    var fs := FrameSize(s);
    var prev := CopiedBytes(s, audio, n - 1);
    CopiedBytesLength(s, audio, n - 1);
    CopiedBytesLength(s, audio, n);
    assert FrameInside(s, audio, k);
    assert FrameInside(s, audio, n - 1);
    assert |prev| == (n - 1) * fs;
    if k < n - 1 {
      CopiedBytesAt(s, audio, n - 1, k, j);
    } else {
      assert k * fs + j == |prev| + j;
    }
  }

  /** Offsets are exact multiples of the stride as long as no addition wraps. */
  lemma {:induction false} SrcOffsetExact(stride: u32, i: nat)
    requires i * stride < U32
    ensures SrcOffset(stride, i) == i * stride
  {
    if i > 0 {
      assert (i - 1) * stride == i * stride - stride;
      SrcOffsetExact(stride, i - 1);
    }
  }

  /**
   * Neither the 32-bit cast of the buffer size nor the 32-bit offset
   * arithmetic loses information: the buffer is below 4 GiB and one more
   * stride past it still fits.
   */
  predicate NoWrap(s: AudioSpec, audio: seq<byte>)
  {
    |audio| < U32 && |audio| + s.stride <= U32
  }

  /** A product grows with its first factor. */
  lemma MulMonotone(a: nat, b: nat, c: nat)
    requires a <= b
    ensures a * c <= b * c
  {
  }

  /**
   * Without wrap-around, frame `i` is copied exactly when `i < sampleCount` and its offset
   * `i * stride` lies inside the buffer.
   */
  lemma {:induction false} CopiedIffInside(s: AudioSpec, audio: seq<byte>, i: nat)
    requires NoWrap(s, audio)
    ensures i < CopiedCount(s, audio) <==> i < s.sampleCount && i * s.stride < |audio|
  {
    var n := CopiedCount(s, audio);
    WrapSmall(|audio|, U32);
    if i < n {
      OffsetExactBelow(s, audio, i);
      assert StartsInside(s.stride, |audio| % U32, i);
    } else if i < s.sampleCount {
      OffsetExactBelow(s, audio, n);
      assert SrcOffset(s.stride, n) >= |audio| % U32;
      MulMonotone(n, i, s.stride);
    }
  }

  /** Every offset the loop reaches, including the one that stops it, is exact. */
  lemma {:induction false} OffsetExactBelow(s: AudioSpec, audio: seq<byte>, j: nat)
    requires NoWrap(s, audio)
    requires j <= CopiedCount(s, audio)
    ensures SrcOffset(s.stride, j) == j * s.stride
  {
    if j > 0 {
      OffsetExactBelow(s, audio, j - 1);
      WrapSmall(|audio|, U32);
      assert StartsInside(s.stride, |audio| % U32, j - 1);
      assert j * s.stride == (j - 1) * s.stride + s.stride;
      SrcOffsetExact(s.stride, j);
    }
  }

  /**
   * A block of exactly sampleCount strides, each holding a whole frame,
   * is copied completely and safely.
   */
  lemma FullBlockCopied(s: AudioSpec, audio: seq<byte>)
    requires NoWrap(s, audio)
    requires 0 < FrameSize(s) <= s.stride
    requires |audio| == s.sampleCount * s.stride
    ensures CopiedCount(s, audio) == s.sampleCount
    ensures CopyInBounds(s, audio)
  {
    var n := CopiedCount(s, audio);
    if n < s.sampleCount {
      CopiedIffInside(s, audio, n);
      MulMonotone(n + 1, s.sampleCount, s.stride);
      assert false;
    }
    forall i | 0 <= i < n ensures FrameInside(s, audio, i) {
      OffsetExactBelow(s, audio, i);
      MulMonotone(i + 1, s.sampleCount, s.stride);
      assert (i + 1) * s.stride == i * s.stride + s.stride;
    }
  }

  /** With no padding (stride equal to the frame size), the first `n` frames are the first `n * stride` bytes. */
  lemma {:induction false} PackedPrefix(s: AudioSpec, audio: seq<byte>, n: nat)
    requires NoWrap(s, audio)
    requires FrameSize(s) == s.stride
    requires CopyInBounds(s, audio) && n <= CopiedCount(s, audio)
    ensures n * s.stride <= |audio|
    ensures CopiedBytes(s, audio, n) == audio[..n * s.stride]
  {
    if n > 0 {
      PackedPrefix(s, audio, n - 1);
      OffsetExactBelow(s, audio, n - 1);
      CopiedBytesLength(s, audio, n - 1);
      var off := (n - 1) * s.stride;
      var end := n * s.stride;
      assert end == off + s.stride;
      assert SrcOffset(s.stride, n - 1) == off;
      assert FrameInside(s, audio, n - 1);
      assert end <= |audio|;
      assert CopiedBytes(s, audio, n) == audio[..off] + audio[off .. end];
      assert audio[..end] == audio[..off] + audio[off .. end];
    }
  }

  /** With no padding a full block is copied verbatim. */
  lemma PackedBlockVerbatim(s: AudioSpec, audio: seq<byte>)
    requires NoWrap(s, audio)
    requires 0 < FrameSize(s) == s.stride
    requires |audio| == s.sampleCount * s.stride
    ensures CopyInBounds(s, audio) && BlockBytes(s, audio) == audio
  {
    FullBlockCopied(s, audio);
    PackedPrefix(s, audio, s.sampleCount);
  }
}
