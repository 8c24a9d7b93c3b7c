/**
 * The file-level helpers of the audio track extractor: the header
 * builder, the strided sample copy and the finaliser, each working on a
 * `DiskFile` it is handed.
 */
module WavWriter {
  import opened Bytes
  import opened AudioSpecs
  import opened DiskFiles
  import opened WavHeader
  import opened SampleCopy

  // ----- header builder -----

  /** `writeHeader`: copies the bytes of one field into the header buffer at `off`. */
  method WriteHeader(h: array<byte>, off: nat, v: seq<byte>)
    requires off + |v| <= h.Length
    modifies h
    ensures h[..off] == old(h[..off])
    ensures h[off..off + |v|] == v
    ensures h[off + |v|..] == old(h[off + |v|..])
  {
    forall k | 0 <= k < |v| {
      h[off + k] := v[k];
    }
  }

  /** The 44-byte header buffer of `createWavFile`, zero-initialised and filled field by field. */
  method BuildHeader(spec: AudioSpec) returns (h: array<byte>)
    ensures fresh(h) && h[..] == HeaderImage(spec)
  {
    ghost var img := HeaderImage(spec);
    HeaderLayout(spec);
    TagWordsAreAscii();
    h := new byte[HeaderSize](_ => 0);
    WriteHeader(h, 0, Be32(RiffWord));
    WriteHeader(h, 4, Le32(0));
    Grow(h, img, 4, 8);
    WriteHeader(h, 8, Be32(WaveWord));
    Grow(h, img, 8, 12);
    WriteHeader(h, 12, Be32(FmtWord));
    Grow(h, img, 12, 16);
    WriteHeader(h, 16, Le32(16));
    Grow(h, img, 16, 20);
    var format := FormatCode(spec.encoding);
    WriteHeader(h, 20, Le16(format));
    Grow(h, img, 20, 22);
    WriteHeader(h, 22, Le16(spec.channelCount));
    Grow(h, img, 22, 24);
    WriteHeader(h, 24, Le32(spec.sampleRate));
    Grow(h, img, 24, 28);
    WriteHeader(h, 28, Le32(ByteRate(spec)));
    Grow(h, img, 28, 32);
    WriteHeader(h, 32, Le16(BlockAlign(spec)));
    Grow(h, img, 32, 34);
    WriteHeader(h, 34, Le16(spec.bitsPerSample));
    Grow(h, img, 34, 36);
    WriteHeader(h, 36, Be32(DataWord));
    Grow(h, img, 36, 40);
    WriteHeader(h, 40, Le32(0));
    Grow(h, img, 40, 44);
    assert h[..] == h[..HeaderSize];
  }

  /** A buffer that agrees with `b` below `i` and on `i..j` agrees below `j`. */
  lemma Grow(h: array<byte>, b: seq<byte>, i: nat, j: nat)
    requires i <= j <= h.Length && j <= |b|
    requires h[..i] == b[..i] && h[i..j] == b[i..j]
    ensures h[..j] == b[..j]
  {
    assert h[..j] == h[..i] + h[i..j];
    assert b[..j] == b[..i] + b[i..j];
  }

  /**
   * `createWavFile`: creates the file at `path` and writes the header image
   * for `spec`, size fields zeroed. Fails with the first refused OS call.
   */
  method CreateWavFile(path: string, spec: AudioSpec, file: DiskFile) returns (status: int)
    modifies file
    ensures status == FirstRefusal(old(file.replies), 2)
    ensures file.replies == Drop(old(file.replies), if Reply(old(file.replies)) == 0 then 2 else 1)
    ensures file.path == path
    ensures file.isOpen <==> Reply(old(file.replies)) == 0
    ensures status == 0 ==> file.data == HeaderImage(spec) && file.pos == HeaderSize
    ensures status != 0 && file.isOpen ==> file.data == [] && file.pos == 0
    ensures !file.isOpen ==> file.data == old(file.data) && file.pos == 0
  {
    ghost var rs := file.replies;
    status := file.Create(path);
    assert Drop(rs, 0) == rs && Granted(rs, 0) == 0;
    if status != 0 {
      Refused(rs, 0, 2);
      return;
    }
    Accepted(rs, 0);
    var header := BuildHeader(spec);
    status := file.Write(header[..]);
    SpliceAtEnd([], header[..]);
    if status != 0 {
      Refused(rs, 1, 2);
    } else {
      Accepted(rs, 1);
      GrantedSplit(rs, 2, 0);
      GrantedAll(rs, 2);
    }
  }

  // ----- strided sample copy -----

  /** Frames the copy writes: those the OS grants, none on an unopened file. */
  function FramesWritten(wasOpen: bool, rs: seq<int>, n: nat): (k: nat)
    ensures k <= n
  {
    if wasOpen then Granted(rs, n) else 0
  }

  /**
   * The status of a copy of `n` frames: the first refused write, or
   * `NotOpen` when there is a frame to write and the file is not open.
   */
  function WriteStatus(wasOpen: bool, rs: seq<int>, n: nat): int
  {
    if wasOpen then FirstRefusal(rs, n) else if n == 0 then 0 else NotOpen
  }

  /** The OS's answers left after a copy of `n` frames. */
  function WriteReplies(wasOpen: bool, rs: seq<int>, n: nat): seq<int>
  {
    if !wasOpen then rs
    else var g := Granted(rs, n); Drop(rs, if g < n then g + 1 else n)
  }

  /** A copy that stopped after `done` frames, at the end or at a refusal, ends as the summary functions say. */
  lemma WriteOutcome(wasOpen: bool, rs: seq<int>, n: nat, done: nat, status: int)
    requires done <= n && (status == 0 <==> done == n)
    requires wasOpen ==> Granted(rs, done) == done && (status != 0 ==> status == Reply(Drop(rs, done)))
    requires !wasOpen ==> done == 0 && (status != 0 ==> status == NotOpen)
    ensures done == FramesWritten(wasOpen, rs, n) && status == WriteStatus(wasOpen, rs, n)
    ensures wasOpen ==> Drop(rs, if status == 0 then done else done + 1) == WriteReplies(wasOpen, rs, n)
  {
    if wasOpen {
      StopsAtFirstRefusal(rs, n, done, status);
    }
  }

  /**
   * `writeWavAudioData`: appends `FrameSize(spec)` bytes per frame at the
   * file position, stepping `spec.stride` bytes through `audio`, for
   * `CopiedCount(spec, audio)` frames. Running out of buffer stops the copy
   * early and still succeeds; a refused write stops it with that status,
   * after the frames the OS granted.
   */
  method WriteWavAudioData(file: DiskFile, spec: AudioSpec, audio: seq<byte>) returns (status: int)
    requires CopyInBounds(spec, audio)
    modifies file
    ensures var n := CopiedCount(spec, audio);
      && status == WriteStatus(old(file.isOpen), old(file.replies), n)
      && file.replies == WriteReplies(old(file.isOpen), old(file.replies), n)
      && (status == 0 <==> FramesWritten(old(file.isOpen), old(file.replies), n) == n)
    ensures file.isOpen == old(file.isOpen) && file.path == old(file.path)
    ensures var written := CopiedBytes(spec, audio, FramesWritten(old(file.isOpen), old(file.replies), CopiedCount(spec, audio)));
      && file.data == Splice(old(file.data), old(file.pos), written)
      && file.pos == old(file.pos) + |written|
  {
    ghost var n := CopiedCount(spec, audio);
    ghost var rs, d0, p0, wasOpen := file.replies, file.data, file.pos, file.isOpen;
    var srcOffset: u32 := 0;
    var srcStride := spec.stride;
    var totalSamples := spec.sampleCount;
    var size := |audio| % U32;
    var i: nat := 0;
    status := 0;
    while i < totalSamples
      invariant i <= n
      invariant srcOffset == SrcOffset(srcStride, i)
      invariant CopiedFrom(srcStride, size, totalSamples, i) == n
      invariant file.isOpen == wasOpen && file.path == old(file.path)
      invariant wasOpen ==> Granted(rs, i) == i && file.replies == Drop(rs, i)
      invariant !wasOpen ==> i == 0 && file.replies == rs
      invariant file.data == Splice(d0, p0, CopiedBytes(spec, audio, i))
      invariant file.pos == p0 + |CopiedBytes(spec, audio, i)|
      invariant status == 0
    {
      if srcOffset >= size {
        break;
      }
      CopyStep(spec, audio, i);
      var w := WriteFrame(file, spec, audio, i, srcOffset, d0, p0);
      if w != 0 {
        status := w;
        if wasOpen {
          DropStep(rs, i);
        }
        break;
      }
      if wasOpen {
        Accepted(rs, i);
      }
      srcOffset := Add32(srcOffset, srcStride);
      i := i + 1;
    }
    if status == 0 {
      CopyEnd(spec, audio, i);
    }
    WriteOutcome(wasOpen, rs, n, i, status);
  }

  /**
   * One turn of the copy loop: writes the `FrameSize(spec)` bytes of frame
   * `i`, found at `srcOffset`, at the file position, so that the file
   * goes from holding the first `i` frames to holding the first `i + 1`.
   */
  method WriteFrame(file: DiskFile, spec: AudioSpec, audio: seq<byte>, i: nat, srcOffset: u32,
                    ghost d0: seq<byte>, ghost p0: nat) returns (status: int)
    requires CopyInBounds(spec, audio) && i < CopiedCount(spec, audio)
    requires srcOffset == SrcOffset(spec.stride, i)
    requires file.data == Splice(d0, p0, CopiedBytes(spec, audio, i))
    requires file.pos == p0 + |CopiedBytes(spec, audio, i)|
    modifies file
    ensures file.isOpen == old(file.isOpen) && file.path == old(file.path)
    ensures old(file.isOpen) ==> status == Reply(old(file.replies)) && file.replies == Rest(old(file.replies))
    ensures !old(file.isOpen) ==> status == NotOpen && file.replies == old(file.replies)
    ensures status == 0 ==>
      && file.data == Splice(d0, p0, CopiedBytes(spec, audio, i + 1))
      && file.pos == p0 + |CopiedBytes(spec, audio, i + 1)|
    ensures status != 0 ==> file.data == old(file.data) && file.pos == old(file.pos)
  {
    assert FrameInside(spec, audio, i);
    var frame := audio[srcOffset .. srcOffset + FrameSize(spec)];
    ghost var written := CopiedBytes(spec, audio, i);
    status := file.Write(frame);
    if status == 0 {
      WriteAfter(d0, p0, written, frame, old(file.data), file.data);
    }
  }

  // ----- finaliser -----

  /** Calls of `closeWavFile` the OS grants, of its seek, write, seek, write and close; none on an unopened file. */
  function CloseGranted(wasOpen: bool, rs: seq<int>): (g: nat)
    ensures g <= 5
  {
    if wasOpen then Granted(rs, 5) else 0
  }

  /** The status of `closeWavFile`: the first refused call, success on an unopened file. */
  function CloseStatus(wasOpen: bool, rs: seq<int>): int
  {
    if wasOpen then FirstRefusal(rs, 5) else 0
  }

  /** The OS's answers left after `closeWavFile`. */
  function CloseReplies(wasOpen: bool, rs: seq<int>): seq<int>
  {
    if !wasOpen then rs
    else var g := CloseGranted(wasOpen, rs); Drop(rs, if g < 5 then g + 1 else 5)
  }

  /** The handle stays open when a call before the final close is refused. */
  predicate CloseLeavesOpen(wasOpen: bool, rs: seq<int>)
  {
    wasOpen && CloseGranted(wasOpen, rs) < 4
  }

  /** The bytes after `closeWavFile`: patched as far as the granted writes went. */
  function CloseData(wasOpen: bool, rs: seq<int>, data: seq<byte>, pos: nat): seq<byte>
  {
    var g := CloseGranted(wasOpen, rs);
    if !wasOpen || g < 2 then data
    else if g < 4 then RiffPatched(data, pos)
    else Finalized(data, pos)
  }

  /** The position after `closeWavFile`: where the last granted seek or write left it, 0 once closed. */
  function ClosePos(wasOpen: bool, rs: seq<int>, pos: nat): nat
  {
    if !wasOpen then pos else [pos, 4, 8, 40, 0, 0][CloseGranted(wasOpen, rs)]
  }

  /**
   * `closeWavFile`: on an open file, writes the riff size at offset 4 and
   * the data size at offset 40 (both derived from the current position)
   * and closes the file; stops at the first refused call. An unopened file
   * is left alone and reports success.
   */
  method CloseWavFile(file: DiskFile) returns (status: int)
    modifies file
    ensures file.path == old(file.path)
    ensures !old(file.isOpen) ==>
      && status == 0 && !file.isOpen
      && file.data == old(file.data) && file.pos == old(file.pos) && file.replies == old(file.replies)
    ensures status == CloseStatus(old(file.isOpen), old(file.replies))
    ensures file.replies == CloseReplies(old(file.isOpen), old(file.replies))
    ensures file.isOpen == CloseLeavesOpen(old(file.isOpen), old(file.replies))
    ensures file.data == CloseData(old(file.isOpen), old(file.replies), old(file.data), old(file.pos))
    ensures file.pos == ClosePos(old(file.isOpen), old(file.replies), old(file.pos))
  {
    if !file.isOpen {
      return 0;
    }
    ghost var rs := file.replies;
    assert Drop(rs, 0) == rs && Granted(rs, 0) == 0;
    var totalAudioDataSize := DataSizeField(file.pos);
    status := file.SetPos(4);
    if status != 0 {
      Refused(rs, 0, 5);
      return;
    }
    Accepted(rs, 0);
    var fileSize := (36 + totalAudioDataSize) % U32;
    status := file.Write(Le32(fileSize));
    if status != 0 {
      Refused(rs, 1, 5);
      return;
    }
    Accepted(rs, 1);
    status := file.SetPos(40);
    if status != 0 {
      Refused(rs, 2, 5);
      return;
    }
    Accepted(rs, 2);
    status := file.Write(Le32(totalAudioDataSize));
    if status != 0 {
      Refused(rs, 3, 5);
      return;
    }
    Accepted(rs, 3);
    status := file.Close();
    if status != 0 {
      Refused(rs, 4, 5);
    } else {
      Accepted(rs, 4);
      GrantedSplit(rs, 5, 0);
      GrantedAll(rs, 5);
    }
  }
}
