/**
 * The per-block state machine of the audio track extractor, which
 * decides when to finalise the current WAV file and start a new one,
 * and the output-path rule of the extraction entry point.
 */
module AudioTrackExtractor {
  import opened Bytes
  import opened AudioSpecs
  import opened DiskFiles
  import opened WavHeader
  import opened SampleCopy
  import opened WavWriter

  // ----- the per-block state machine -----

  /** `kMaxWavFileSize`: the projected position at which a new file is started, 2^40. */
  const MaxWavFileSize: nat := 0x100_0000_0000

  /**
   * A block starts a new file when it does not fit the open file's
   * descriptor, or when appending its buffer would bring the position to
   * the cap.
   */
  predicate NeedsRollover(fileSpec: AudioSpec, blockSpec: AudioSpec, pos: nat, blockSize: nat)
  {
    !Compatible(fileSpec, blockSpec) || pos + blockSize >= MaxWavFileSize
  }

  /** The first PCM block always opens a file, since the extractor starts from the undefined descriptor. */
  lemma FirstPcmBlockRollsOver(blockSpec: AudioSpec, pos: nat, blockSize: nat)
    requires blockSpec.format == Pcm
    ensures NeedsRollover(Undefined, blockSpec, pos, blockSize)
  {
  }

  /** For compatible blocks the cap alone decides: one byte short, exactly at and one past the cap. */
  lemma RolloverAtCap(fileSpec: AudioSpec, blockSpec: AudioSpec, pos: nat, blockSize: nat)
    requires Compatible(fileSpec, blockSpec)
    ensures NeedsRollover(fileSpec, blockSpec, pos, blockSize) <==> pos + blockSize >= MaxWavFileSize
    ensures pos + blockSize == MaxWavFileSize - 1 ==> !NeedsRollover(fileSpec, blockSpec, pos, blockSize)
    ensures pos + blockSize == MaxWavFileSize ==> NeedsRollover(fileSpec, blockSpec, pos, blockSize)
    ensures pos + blockSize == MaxWavFileSize + 1 ==> NeedsRollover(fileSpec, blockSpec, pos, blockSize)
  {
  }

  /** The caller's file counter, shared by reference with the extractor. */
  class Counter {
    var value: u32

    constructor (v: u32)
      ensures value == v
    {
      value := v;
    }
  }

  /** How one call of `OnAudioRead` ended. */
  datatype Outcome =
    | ReadFailed
    | Skipped
    | CreateFailed
    | WriteFailed(rolledOver: bool)
    | Written(rolledOver: bool)
  {
    /** A new file was opened during the call. */
    predicate Opened()
    {
      (WriteFailed? || Written?) && rolledOver
    }

    /** The rollover branch was taken. */
    predicate RolloverTried()
    {
      CreateFailed? || Opened()
    }
  }

  class ExtendedAudioTrackExtractor {
    const wavFilePath: string
    /** The one file this extractor writes. */
    const currentWavFile: DiskFile
    /** The cumulative file counter of the caller. */
    const cumulativeCount: Counter
    /** The counter's value when the extractor was made. */
    ghost const counterBase: u32
    /** The descriptor the current file was opened for. */
    var fileAudioSpec: AudioSpec
    /** Files this extractor has opened, modulo 2^32. */
    var streamCount: u32
    /** Timestamp of the first block of the current file. */
    var segmentStart: real
    /** Samples declared by the blocks written to the current file, modulo 2^64. */
    var segmentSamples: u64

    /**
     * The descriptor is either the initial one or a PCM one; every file
     * the extractor opens adds one to both counters; before the first file
     * no file has been counted.
     */
    ghost predicate Valid()
      reads this, cumulativeCount
    {
      && (fileAudioSpec == Undefined || fileAudioSpec.format == Pcm)
      && cumulativeCount.value == Add32(counterBase, streamCount)
      && (fileAudioSpec == Undefined ==> streamCount == 0)
    }

    /** `osReplies` are the operating system's answers to the output file's calls. */
    constructor (wavFilePath: string, counter: Counter, osReplies: seq<int>)
      ensures Valid()
      ensures this.wavFilePath == wavFilePath && cumulativeCount == counter && counterBase == counter.value
      ensures fresh(currentWavFile) && !currentWavFile.isOpen && currentWavFile.data == [] && currentWavFile.pos == 0
      ensures currentWavFile.replies == osReplies
      ensures fileAudioSpec == Undefined && streamCount == 0 && segmentStart == 0.0 && segmentSamples == 0
    {
      this.wavFilePath := wavFilePath;
      currentWavFile := new DiskFile(osReplies);
      cumulativeCount := counter;
      counterBase := counter.value;
      fileAudioSpec := Undefined;
      streamCount := 0;
      segmentStart := 0.0;
      segmentSamples := 0;
    }

    /**
     * The rollover branch of `onAudioRead`: finalises the current file
     * (its status is ignored), re-creates it for `spec`, and on success
     * adopts `spec`, counts the new file and starts a new segment at
     * `timestamp`. The status is that of the creation, decided by the OS's
     * answers left after the finalisation. A failed creation changes none
     * of the extractor's fields.
     */
    method StartSegment(timestamp: real, spec: AudioSpec) returns (status: int)
      requires Valid() && spec.format == Pcm
      modifies this, currentWavFile, cumulativeCount
      ensures Valid()
      ensures currentWavFile.path == wavFilePath
      ensures var q := CloseReplies(old(currentWavFile.isOpen), old(currentWavFile.replies));
        && status == FirstRefusal(q, 2)
        && currentWavFile.replies == Drop(q, if Reply(q) == 0 then 2 else 1)
        && (currentWavFile.isOpen <==> Reply(q) == 0)
      ensures status != 0 ==> unchanged(this) && unchanged(cumulativeCount)
      ensures status != 0 ==>
        && currentWavFile.pos == 0
        && currentWavFile.data
           == if currentWavFile.isOpen then []
              else CloseData(old(currentWavFile.isOpen), old(currentWavFile.replies),
                             old(currentWavFile.data), old(currentWavFile.pos))
      ensures status == 0 ==>
        && fileAudioSpec == spec
        && streamCount == Add32(old(streamCount), 1)
        && cumulativeCount.value == Add32(old(cumulativeCount.value), 1)
        && segmentStart == timestamp && segmentSamples == 0
        && currentWavFile.isOpen
        && currentWavFile.data == HeaderImage(spec) && currentWavFile.pos == HeaderSize
    {
      var _ := CloseWavFile(currentWavFile);
      status := CreateWavFile(wavFilePath, spec, currentWavFile);
      if status != 0 {
        return;
      }
      fileAudioSpec := spec;
      cumulativeCount.value := Add32(cumulativeCount.value, 1);
      streamCount := Add32(streamCount, 1);
      Add32Assoc(counterBase, old(streamCount), 1);
      segmentStart := timestamp;
      segmentSamples := 0;
    }

    /**
     * The write half of `onAudioRead`: appends the block's frames to the
     * current file and, when every frame was written, counts the block's
     * samples into the segment, which starts at `timestamp` if it held none.
     */
    method AppendBlock(timestamp: real, spec: AudioSpec, audio: seq<byte>) returns (status: int)
      requires Valid() && CopyInBounds(spec, audio)
      modifies this, currentWavFile
      ensures Valid()
      ensures var n := CopiedCount(spec, audio);
        var written := CopiedBytes(spec, audio, FramesWritten(old(currentWavFile.isOpen), old(currentWavFile.replies), n));
        && status == WriteStatus(old(currentWavFile.isOpen), old(currentWavFile.replies), n)
        && currentWavFile.replies == WriteReplies(old(currentWavFile.isOpen), old(currentWavFile.replies), n)
        && (status == 0 <==> FramesWritten(old(currentWavFile.isOpen), old(currentWavFile.replies), n) == n)
        && currentWavFile.data == Splice(old(currentWavFile.data), old(currentWavFile.pos), written)
        && currentWavFile.pos == old(currentWavFile.pos) + |written|
      ensures currentWavFile.isOpen == old(currentWavFile.isOpen) && currentWavFile.path == old(currentWavFile.path)
      ensures fileAudioSpec == old(fileAudioSpec) && streamCount == old(streamCount)
      ensures status != 0 ==> segmentStart == old(segmentStart) && segmentSamples == old(segmentSamples)
      ensures status == 0 ==>
        && segmentSamples == (old(segmentSamples) + spec.sampleCount) % U64
        && segmentStart == (if old(segmentSamples) == 0 then timestamp else old(segmentStart))
    {
      status := WriteWavAudioData(currentWavFile, spec, audio);
      if status != 0 {
        return;
      }
      // The late/early classification of a block is diagnostic only.
      if segmentSamples == 0 {
        segmentStart := timestamp;
      }
      segmentSamples := (segmentSamples + spec.sampleCount) % U64;
    }

    /**
     * `onAudioRead` for one block: `readStatus` is the reader's status and
     * `audio` the bytes it read. Non-PCM blocks are skipped. A block that
     * needs a rollover closes the current file and re-creates it for the
     * block's descriptor; then the block's frames are appended. Which of
     * these steps fails is decided by the OS's answers.
     */
    method OnAudioRead(timestamp: real, spec: AudioSpec, audio: seq<byte>, readStatus: int)
      returns (ok: bool, ghost outcome: Outcome)
      requires Valid()
      requires readStatus == 0 && spec.format == Pcm ==> CopyInBounds(spec, audio)
      modifies this, currentWavFile, cumulativeCount
      ensures Valid()
      ensures ok <==> outcome.Skipped? || outcome.Written?
      ensures outcome == ReadFailed <==> readStatus != 0
      ensures outcome == Skipped <==> readStatus == 0 && spec.format != Pcm
      ensures outcome.ReadFailed? || outcome.Skipped? ==>
        && unchanged(this) && unchanged(cumulativeCount)
        && unchanged(currentWavFile)
      // when a new file is started, and when starting it fails
      ensures readStatus == 0 && spec.format == Pcm ==>
        (outcome.RolloverTried() <==>
         NeedsRollover(old(fileAudioSpec), spec, old(currentWavFile.pos), |audio|))
      ensures readStatus == 0 && spec.format == Pcm ==>
        (outcome.CreateFailed? <==>
         && NeedsRollover(old(fileAudioSpec), spec, old(currentWavFile.pos), |audio|)
         && FirstRefusal(CloseReplies(old(currentWavFile.isOpen), old(currentWavFile.replies)), 2) != 0)
      // what the OS's answers make of the write
      ensures readStatus == 0 && spec.format == Pcm && (outcome.WriteFailed? || outcome.Written?) ==>
        var n := CopiedCount(spec, audio);
        var rolled := outcome.rolledOver;
        var wasOpen := rolled || old(currentWavFile.isOpen);
        var rs := if rolled then Drop(CloseReplies(old(currentWavFile.isOpen), old(currentWavFile.replies)), 2)
                  else old(currentWavFile.replies);
        var start := if rolled then HeaderImage(spec) else old(currentWavFile.data);
        var startPos := if rolled then HeaderSize else old(currentWavFile.pos);
        var written := CopiedBytes(spec, audio, FramesWritten(wasOpen, rs, n));
        && (outcome.Written? <==> WriteStatus(wasOpen, rs, n) == 0)
        && (outcome.Written? <==> FramesWritten(wasOpen, rs, n) == n)
        && currentWavFile.replies == WriteReplies(wasOpen, rs, n)
        && currentWavFile.data == Splice(start, startPos, written)
        && currentWavFile.pos == startPos + |written|
        && currentWavFile.isOpen == wasOpen
        && (!rolled ==> currentWavFile.path == old(currentWavFile.path))
      // what a failed creation leaves alone
      ensures !outcome.Opened() ==>
        && fileAudioSpec == old(fileAudioSpec) && streamCount == old(streamCount)
        && cumulativeCount.value == old(cumulativeCount.value)
      ensures outcome.CreateFailed? || (outcome.WriteFailed? && !outcome.rolledOver) ==>
        segmentStart == old(segmentStart) && segmentSamples == old(segmentSamples)
      ensures outcome.CreateFailed? ==>
        var q := CloseReplies(old(currentWavFile.isOpen), old(currentWavFile.replies));
        && currentWavFile.replies == Drop(q, if Reply(q) == 0 then 2 else 1)
        && (currentWavFile.isOpen <==> Reply(q) == 0)
        && currentWavFile.pos == 0
        && currentWavFile.data
           == if currentWavFile.isOpen then []
              else CloseData(old(currentWavFile.isOpen), old(currentWavFile.replies),
                             old(currentWavFile.data), old(currentWavFile.pos))
      // a successful rollover
      ensures outcome.Opened() ==>
        && fileAudioSpec == spec
        && streamCount == Add32(old(streamCount), 1)
        && cumulativeCount.value == Add32(old(cumulativeCount.value), 1)
        && segmentStart == timestamp
      ensures outcome == WriteFailed(true) ==> segmentSamples == 0
      // a successful write
      ensures outcome.Written? ==>
        var base := if outcome.rolledOver then 0 else old(segmentSamples);
        && segmentSamples == (base + spec.sampleCount) % U64
        && segmentStart == (if base == 0 then timestamp else old(segmentStart))
      ensures outcome.RolloverTried() ==> currentWavFile.path == wavFilePath
    {
      if readStatus != 0 {
        return false, ReadFailed;
      }
      if spec.format != Pcm {
        return true, Skipped;
      }
      var rolled := NeedsRollover(fileAudioSpec, spec, currentWavFile.pos, |audio|);
      if rolled {
        var status := StartSegment(timestamp, spec);
        if status != 0 {
          return false, CreateFailed;
        }
      }
      var status := AppendBlock(timestamp, spec, audio);
      if status != 0 {
        return false, WriteFailed(rolled);
      }
      return true, Written(rolled);
    }

    /**
     * The destructor: finalises the current file, with the same effect as
     * `closeWavFile`; its status is dropped.
     */
    method Dispose()
      modifies currentWavFile
      ensures currentWavFile.path == old(currentWavFile.path)
      ensures currentWavFile.replies == CloseReplies(old(currentWavFile.isOpen), old(currentWavFile.replies))
      ensures currentWavFile.isOpen == CloseLeavesOpen(old(currentWavFile.isOpen), old(currentWavFile.replies))
      ensures currentWavFile.data
           == CloseData(old(currentWavFile.isOpen), old(currentWavFile.replies), old(currentWavFile.data), old(currentWavFile.pos))
      ensures currentWavFile.pos == ClosePos(old(currentWavFile.isOpen), old(currentWavFile.replies), old(currentWavFile.pos))
      ensures old(currentWavFile.isOpen) && FirstRefusal(old(currentWavFile.replies), 5) == 0 ==>
        !currentWavFile.isOpen && currentWavFile.data == Finalized(old(currentWavFile.data), old(currentWavFile.pos))
    {
      var _ := CloseWavFile(currentWavFile);
      GrantedAll(old(currentWavFile.replies), 5);
    }
  }

  // ----- output paths -----

  /** ASCII lower case; every other character is left alone. */
  function ToLower(c: char): (r: char)
    ensures 'A' <= c <= 'Z' ==> r as int == c as int + 32
    ensures !('A' <= c <= 'Z') ==> r == c
  {
    if 'A' <= c <= 'Z' then (c as int + 32) as char else c
  }

  /** Equal up to the case of ASCII letters, as `strncasecmp` compares. */
  predicate SameIgnoringCase(a: string, b: string)
  {
    |a| == |b| && forall i :: 0 <= i < |a| ==> ToLower(a[i]) == ToLower(b[i])
  }

  /** `helpers::endsWith`: the last characters of `s` are `suffix`, ignoring ASCII case. */
  predicate EndsWith(s: string, suffix: string)
  {
    |suffix| <= |s| && SameIgnoringCase(s[|s| - |suffix|..], suffix)
  }

  /** The WAV path: `filePath` itself if it already ends in ".w64" in any case, otherwise with ".w64" appended. */
  function OutputPath(filePath: string): (p: string)
    ensures EndsWith(p, ".w64")
    ensures |filePath| <= |p| && p[..|filePath|] == filePath
    ensures p == filePath <==> EndsWith(filePath, ".w64")
    ensures p != filePath ==> p == filePath + ".w64"
  {
    var p := filePath + (if EndsWith(filePath, ".w64") then "" else ".w64");
    assert p[|p| - 4..] == ".w64" || p == filePath;
    p
  }

  /** The summary path: the WAV path with ".json" appended. */
  function JsonPath(filePath: string): (p: string)
    ensures EndsWith(p, ".w64.json")
    ensures p[..|p| - 5] == OutputPath(filePath)
    ensures p[|p| - 5..] == ".json"
  {
    var w := OutputPath(filePath);
    var p := w + ".json";
    assert p[|p| - 9..] == w[|w| - 4..] + ".json";
    p
  }

  /** The suffix test ignores case: an upper-case ".W64" is kept, any other ending gets ".w64". */
  lemma OutputPathIgnoresCase()
    ensures OutputPath("take.W64") == "take.W64"
    ensures OutputPath("take.w64") == "take.w64"
    ensures OutputPath("take.wav") == "take.wav.w64"
  {
    assert EndsWith("take.W64", ".w64") by {
      assert "take.W64"[4..] == ".W64";
    }
    assert EndsWith("take.w64", ".w64") by {
      assert "take.w64"[4..] == ".w64";
    }
    assert !EndsWith("take.wav", ".w64") by {
      assert "take.wav"[4..] == ".wav";
      assert ToLower("take.wav"[4..][3]) != ToLower(".w64"[3]);
    }
  }

  /** Applying the suffix rule twice is applying it once. */
  lemma OutputPathIdempotent(filePath: string)
    ensures OutputPath(OutputPath(filePath)) == OutputPath(filePath)
  {
  }
}
