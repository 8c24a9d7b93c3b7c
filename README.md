# Audio track extractor: WAV segment writer

This project models the part of the Aria tools' audio track extractor that
turns the PCM audio blocks of a VRS recording into a WAV file. It also
proves properties of that model.

- **Header builder** (`createWavFile`, with its `writeHeader` helper).
  It creates the output file and writes a 44-byte RIFF/WAVE header, laid
  out as in the Microsoft/IBM *Multimedia Programming Interface and Data
  Specifications 1.0*. The header carries the ASCII tags "RIFF", "WAVE",
  "fmt " and "data", little-endian numeric fields, and two size fields
  that stay zero until the file is finalised. The format code is one of
  the WAVE registrations of RFC 2361: 1 PCM, 3 IEEE float, 6 A-law,
  7 mu-law.
- **Strided sample copy** (`writeWavAudioData`). For each sample frame it
  appends `((bits + 7) / 8) * channels` bytes, stepping `stride` bytes
  through the block's buffer with a wrapping 32-bit offset. It stops, and
  still reports success, at the first frame whose start offset is not
  below the buffer size. A refused write stops it with that write's
  status.
- **Finaliser** (`closeWavFile`). On an open file it derives the data
  size from the current position and writes the riff size at offset 4 and the
  data size at offset 40. Both are 32-bit and wrap. Then it closes the
  file. An unopened file is left alone and the call succeeds.
- **Per-block state machine** (`onAudioRead`).
  - It skips non-PCM blocks.
  - It starts a new file when the block's descriptor is incompatible with
    the current file's, or when the projected position reaches 2^40.
  - On a new file it counts the file in the per-stream counter and in the
    caller's cumulative counter, and resets the segment sample counter and
    start time.
  - It then appends the block's frames.
- **Output path rule** (`extractAudioTrack`). ".w64" is appended unless
  the path already ends in it, in any letter case. The summary path adds
  ".json".

Modules:

- `Bytes`: bytes and unsigned widths, little- and big-endian encoders
  and decoders, and wrapping 32-bit addition.
- `AudioSpecs`: the content-block descriptor, descriptor compatibility,
  and the bytes per sample and per frame.
- `DiskFiles`: the output file as a class holding its bytes, its position
  and the operating system's answers to its next calls.
- `WavHeader`: the header image, a reader for it, and the finalised size
  fields.
- `SampleCopy`: the frames the copy writes and their bytes.
- `WavWriter`: the three file-level routines, as imperative methods on a
  `DiskFile`.
- `AudioTrackExtractor`: the extractor class, its rollover rule and the
  path rule.
- `Scenarios`: whole runs over concrete descriptors.

The operating system's behaviour is an input. Each `DiskFile` holds the
queue of status codes its next OS-level calls will return (0 is success,
and an empty queue answers success). A refused write or seek changes
nothing; create and close drop the old handle whatever the answer.
Writing past the end extends the file, and writing over existing bytes
replaces them (`Splice`).

Notes on the code's behaviour, which the model follows:

- Every rollover re-creates the same path. The per-segment name formatter
  is commented out at `ExtendedAudioTrackExtractor.cpp:58`. So each new
  segment truncates the previous one, and only the last segment survives
  (`Scenarios.FormatChange`).
- There is one cap, 2^40 bytes, and no Wave64 header. Files keep the
  44-byte RIFF header and 32-bit size fields, so the sizes wrap beyond
  4 GiB (`WavHeader.FinalizedSizesWrap`).
- The copy checks only the start offset of a frame, not its end. A final
  partial frame would be read past the buffer. The model requires that
  this does not happen (`SampleCopy.CopyInBounds`).
- Errors do not set the stop flag. No summary statistics are collected
  along the way.
- Compatibility here compares format, sample encoding, channel count,
  bit depth and sample rate. The VRS comparison it stands for is not part
  of this model.

## Model

| member | source | states |
|---|---|---|
| Bytes.Le16RoundTrip | core/data_provider/ExtendedAudioTrackExtractor.cpp:184-189 | decoding the two little-endian bytes of a 16-bit field gives the value back |
| Bytes.FromLe16RoundTrip | core/data_provider/ExtendedAudioTrackExtractor.cpp:184-189 | any two bytes are the little-endian encoding of their decoded value |
| Bytes.Le32RoundTrip | core/data_provider/ExtendedAudioTrackExtractor.cpp:169-172 | decoding the four little-endian bytes of a 32-bit field gives the value back |
| Bytes.FromLe32RoundTrip | core/data_provider/ExtendedAudioTrackExtractor.cpp:219-223 | any four bytes are the little-endian encoding of their decoded value |
| Bytes.Be32IsReversedLe32 | core/data_provider/ExtendedAudioTrackExtractor.cpp:168-171 | the big-endian bytes of a tag word are its little-endian bytes reversed |
| Bytes.Add32Assoc | core/data_provider/ExtendedAudioTrackExtractor.cpp:67-68 | wrapping 32-bit increments of the counters associate |
| Bytes.Add32 | core/data_provider/ExtendedAudioTrackExtractor.cpp:67-68 | `uint32_t` addition: the sum, less 2^32 when it reaches 2^32 |
| Bytes.Add32Wraps | core/data_provider/ExtendedAudioTrackExtractor.cpp:208 | the wrapped sum is the sum modulo 2^32 |
| Bytes.Le16 | core/data_provider/ExtendedAudioTrackExtractor.cpp:184-189 | the two bytes `htole16` stores, least significant first |
| Bytes.Le32 | core/data_provider/ExtendedAudioTrackExtractor.cpp:169-172 | the four bytes `htole32` stores, least significant first |
| Bytes.Be32 | core/data_provider/ExtendedAudioTrackExtractor.cpp:168-171 | the four bytes `htobe32` stores, most significant first |
| AudioSpecs.UndefinedIncompatibleWithPcm | core/data_provider/ExtendedAudioTrackExtractor.cpp:31 | the initial undefined descriptor is compatible with no PCM descriptor |
| AudioSpecs.Compatible | core/data_provider/ExtendedAudioTrackExtractor.cpp:55 | blocks share a file when format, encoding, bit depth, channel count and rate agree; stride and sample count may differ |
| AudioSpecs.CompatibleIsEquivalence | core/data_provider/ExtendedAudioTrackExtractor.cpp:55 | descriptor compatibility is reflexive, symmetric and transitive |
| AudioSpecs.BytesPerSample | core/data_provider/ExtendedAudioTrackExtractor.cpp:183 | bytes per sample is the least whole number of bytes that holds the bit depth |
| AudioSpecs.FrameSize | core/data_provider/ExtendedAudioTrackExtractor.cpp:198 | the frame size fits 32 bits without wrapping, and is zero exactly when the bit depth or channel count is zero |
| WavHeader.TagWordsAreAscii | core/data_provider/ExtendedAudioTrackExtractor.cpp:168-171 | the four tag constants, stored big-endian, are the ASCII of "RIFF", "WAVE", "fmt " and "data" |
| WavHeader.FormatCode | core/data_provider/ExtendedAudioTrackExtractor.cpp:174-181 | code 3 exactly for IEEE float, 6 exactly for A-law, 7 exactly for mu-law, and 1 for every other encoding |
| WavHeader.ByteRate | core/data_provider/ExtendedAudioTrackExtractor.cpp:187 | rate times channels times bytes per sample in 32-bit arithmetic, exact whenever the product fits 32 bits |
| WavHeader.BlockAlign | core/data_provider/ExtendedAudioTrackExtractor.cpp:188 | channels times bytes per sample truncated to 16 bits, exact whenever the frame size fits 16 bits |
| WavHeader.RiffPart | core/data_provider/ExtendedAudioTrackExtractor.cpp:168-170 | the RIFF chunk header is 12 bytes |
| WavHeader.FmtPart | core/data_provider/ExtendedAudioTrackExtractor.cpp:171-189 | the "fmt " chunk is 24 bytes |
| WavHeader.DataPart | core/data_provider/ExtendedAudioTrackExtractor.cpp:190-191 | the data chunk header is 8 bytes |
| WavHeader.HeaderImage | core/data_provider/ExtendedAudioTrackExtractor.cpp:25 | the header image is exactly 44 bytes |
| WavHeader.FmtLayout | core/data_provider/ExtendedAudioTrackExtractor.cpp:171-189 | where each field of the "fmt " chunk sits |
| WavHeader.HeaderLayout | core/data_provider/ExtendedAudioTrackExtractor.cpp:166-191 | "RIFF" at 0, zero at 4, "WAVE" at 8, "fmt " at 12, LE32 16 at 16, the format code at 20, LE16 channels at 22, LE32 rate at 24, LE32 byte rate at 28, LE16 block align at 32, LE16 bits at 34, "data" at 36, zero at 40 |
| WavHeader.HeaderRoundTrip | core/data_provider/ExtendedAudioTrackExtractor.cpp:166-193 | a reader of any file that starts with the header gets back the format code, channel count, rate, byte rate, block align and bit depth, with both sizes zero |
| WavHeader.BlockAlignExact | core/data_provider/ExtendedAudioTrackExtractor.cpp:188 | with channel count and bit depth below 256, the 16-bit block-align field holds channels times bytes per sample untruncated |
| WavHeader.FinalizedTouchesOnlySizes | core/data_provider/ExtendedAudioTrackExtractor.cpp:217-223 | finalising keeps the length, writes LE32 of the riff size at 4..7 and LE32 of the data size at 40..43, and leaves every other byte as it was |
| WavHeader.ParseIgnoresSizes | core/data_provider/ExtendedAudioTrackExtractor.cpp:218-223 | a readable header changed only in the two size fields reads the same apart from those sizes |
| WavHeader.DataSizeField | core/data_provider/ExtendedAudioTrackExtractor.cpp:217 | `getPos() - 44` as `uint32_t`: exact for positions from 44 below 2^32 + 44, and 2^32 + pos - 44 for a position below 44 |
| WavHeader.RiffSizeField | core/data_provider/ExtendedAudioTrackExtractor.cpp:219 | 36 plus the data size, exact unless the data size is within 36 of 2^32, where it wraps |
| WavHeader.RiffPatched | core/data_provider/ExtendedAudioTrackExtractor.cpp:218-220 | the bytes after the riff size is written at offset 4; a file of at least a header keeps its length |
| WavHeader.Finalized | core/data_provider/ExtendedAudioTrackExtractor.cpp:218-223 | the bytes after both size fields are written; a file of at least a header keeps its length |
| WavHeader.FinalizedSizes | core/data_provider/ExtendedAudioTrackExtractor.cpp:217-223 | a created header plus N sample bytes, finalised, declares riffSize (36 + N) mod 2^32 and dataSize N mod 2^32, and every other field unchanged |
| WavHeader.WrapSum | core/data_provider/ExtendedAudioTrackExtractor.cpp:217-219 | wrapping the data size and then the riff-size sum is wrapping the sum once |
| WavHeader.FinalizedSizesExact | core/data_provider/ExtendedAudioTrackExtractor.cpp:217-223 | below 2^32 - 36 sample bytes the finalised riffSize is 36 + N and dataSize is N |
| WavHeader.FinalizedSizesWrap | core/data_provider/ExtendedAudioTrackExtractor.cpp:217-223 | exactly 2^32 sample bytes, which the 2^40 cap allows, finalise to dataSize 0 and riffSize 36 |
| SampleCopy.CopiedFrom | core/data_provider/ExtendedAudioTrackExtractor.cpp:201-205 | from frame i the loop runs to the sample count or to the first frame whose offset is not below the buffer size, and every frame before that starts inside |
| SampleCopy.SrcOffset | core/data_provider/ExtendedAudioTrackExtractor.cpp:197-208 | frame i's source offset: 0, then the stride added with 32-bit wrap per frame |
| SampleCopy.CopiedCount | core/data_provider/ExtendedAudioTrackExtractor.cpp:200-205 | the frames one call copies: from frame 0 to the sample count or the first frame starting at or past the buffer size taken as `uint32_t` |
| SampleCopy.CopyInBounds | core/data_provider/ExtendedAudioTrackExtractor.cpp:202-207 | every frame the loop copies ends inside the buffer |
| SampleCopy.BlockBytes | core/data_provider/ExtendedAudioTrackExtractor.cpp:196-211 | the bytes one call appends: all its copied frames |
| SampleCopy.CopiedBytes | core/data_provider/ExtendedAudioTrackExtractor.cpp:207 | the bytes of the first n copied frames, concatenated in order |
| SampleCopy.CopiedBytesLength | core/data_provider/ExtendedAudioTrackExtractor.cpp:198-207 | n copied frames are exactly n frame sizes of bytes |
| SampleCopy.CopyStep | core/data_provider/ExtendedAudioTrackExtractor.cpp:201-208 | a frame that starts inside the buffer is copied whole, the next offset adds the stride with 32-bit wrap, and the copied bytes grow by that frame |
| SampleCopy.CopyEnd | core/data_provider/ExtendedAudioTrackExtractor.cpp:201-204 | the loop leaves after the last frame or at the first that starts past the end, having copied exactly the frames counted |
| SampleCopy.CopiedBytesAt | core/data_provider/ExtendedAudioTrackExtractor.cpp:207-208 | byte j of copied frame k is byte j of the source at frame k's offset, so frames are appended in order and stride padding is dropped |
| SampleCopy.SrcOffsetExact | core/data_provider/ExtendedAudioTrackExtractor.cpp:208 | while i times the stride fits 32 bits, frame i's offset is i times the stride |
| SampleCopy.CopiedIffInside | core/data_provider/ExtendedAudioTrackExtractor.cpp:201-205 | when offsets do not wrap, frame i is written exactly when i is below the sample count and i times the stride is below the buffer size |
| SampleCopy.OffsetExactBelow | core/data_provider/ExtendedAudioTrackExtractor.cpp:197-208 | when offsets do not wrap, every offset the loop reaches, including the one that stops it, is the frame index times the stride |
| SampleCopy.FullBlockCopied | core/data_provider/ExtendedAudioTrackExtractor.cpp:196-211 | a buffer of sample count times stride bytes, with the frame no larger than the stride, has every frame copied whole |
| SampleCopy.PackedPrefix | core/data_provider/ExtendedAudioTrackExtractor.cpp:198-207 | with stride equal to the frame size, the first n frames are the first n times stride bytes of the buffer |
| SampleCopy.PackedBlockVerbatim | core/data_provider/ExtendedAudioTrackExtractor.cpp:196-211 | a full block with no padding is written verbatim |
| DiskFiles.Put | core/data_provider/ExtendedAudioTrackExtractor.cpp:207 | writing one byte at a position extends the file to cover that position and no further |
| DiskFiles.Splice | core/data_provider/ExtendedAudioTrackExtractor.cpp:207 | writing bytes at a position, one after the other, each replacing or extending the file |
| DiskFiles.SpliceLength | core/data_provider/ExtendedAudioTrackExtractor.cpp:207 | after a non-empty write the file ends at the write's end or keeps its old length, whichever is larger |
| DiskFiles.SpliceAt | core/data_provider/ExtendedAudioTrackExtractor.cpp:220-223 | after a write, the bytes in the written range are the new bytes, bytes before the old end keep their value, and a gap reads as zeros |
| DiskFiles.SpliceAppend | core/data_provider/ExtendedAudioTrackExtractor.cpp:207 | two consecutive writes equal one write of the concatenation |
| DiskFiles.SpliceAtEnd | core/data_provider/ExtendedAudioTrackExtractor.cpp:193 | a write at the end of the file appends |
| DiskFiles.GrantedAll | core/data_provider/ExtendedAudioTrackExtractor.cpp:218-224 | a run of calls with no refusal is granted in full |
| DiskFiles.GrantedSplit | core/data_provider/ExtendedAudioTrackExtractor.cpp:207 | the granted prefix of a run splits at any point of it |
| DiskFiles.StopsAtFirstRefusal | core/data_provider/ExtendedAudioTrackExtractor.cpp:218-224 | a loop that stops at its first refused call has made the granted calls and reports the first refusal |
| DiskFiles.NoRefusals | core/data_provider/ExtendedAudioTrackExtractor.cpp:207 | an OS that refuses nothing grants every call |
| DiskFiles.DiskFile.Create | core/data_provider/ExtendedAudioTrackExtractor.cpp:164 | on success the file is open, empty, at position 0; on refusal it is not open and keeps its bytes |
| DiskFiles.DiskFile.Write | core/data_provider/ExtendedAudioTrackExtractor.cpp:207 | on success the bytes replace or extend the file at the position, which advances past them; otherwise nothing changes; an unopened file refuses without asking the OS |
| DiskFiles.DiskFile.SetPos | core/data_provider/ExtendedAudioTrackExtractor.cpp:218-221 | on success the position moves; otherwise it stays |
| DiskFiles.DiskFile.Close | core/data_provider/ExtendedAudioTrackExtractor.cpp:224 | the handle is released and the bytes stay |
| WavWriter.WriteHeader | core/data_provider/ExtendedAudioTrackExtractor.cpp:19-22 | the field's bytes land at the offset and every other byte of the buffer is unchanged |
| WavWriter.BuildHeader | core/data_provider/ExtendedAudioTrackExtractor.cpp:166-191 | the zero-filled buffer, written field by field, becomes the header image |
| WavWriter.CreateWavFile | core/data_provider/ExtendedAudioTrackExtractor.cpp:163-194 | creates the path and writes the header image; the status is the first refused of the two calls, and a failed create is not retried |
| WavWriter.WriteWavAudioData | core/data_provider/ExtendedAudioTrackExtractor.cpp:196-211 | the status is the first refused frame write, or `NotOpen` on an unopened file with frames to copy, and 0 exactly when every counted frame was written; the file holds the copied bytes of the frames the OS granted at the position, which advances past them; the OS answers left are those after the last call made |
| WavWriter.WriteFrame | core/data_provider/ExtendedAudioTrackExtractor.cpp:207 | one turn of the copy loop: on success the file holds one more copied frame; otherwise it is unchanged |
| WavWriter.FramesWritten | core/data_provider/ExtendedAudioTrackExtractor.cpp:201-209 | frames a copy writes: those granted before the first refusal, none on an unopened file |
| WavWriter.WriteStatus | core/data_provider/ExtendedAudioTrackExtractor.cpp:207-210 | a copy's status: the first refusal, 0 on an unopened file only when there is nothing to copy |
| WavWriter.WriteReplies | core/data_provider/ExtendedAudioTrackExtractor.cpp:207 | the OS's answers left after a copy, one past the granted ones when a write was refused |
| WavWriter.WriteOutcome | core/data_provider/ExtendedAudioTrackExtractor.cpp:201-210 | a copy that stopped at the end or at the first refusal wrote `FramesWritten` frames and reports `WriteStatus` |
| WavWriter.CloseWavFile | core/data_provider/ExtendedAudioTrackExtractor.cpp:213-225 | unopened: success with nothing changed; otherwise the status is the first refusal of the five calls, the bytes are patched as far as the granted writes went (fully finalised when all are granted), and handle, position and answers left are those after the last call made |
| WavWriter.CloseGranted | core/data_provider/ExtendedAudioTrackExtractor.cpp:218-224 | calls of the finaliser the OS grants, at most five, none on an unopened file |
| WavWriter.CloseStatus | core/data_provider/ExtendedAudioTrackExtractor.cpp:214-224 | the finaliser's status: the first refused call, 0 on an unopened file |
| WavWriter.CloseReplies | core/data_provider/ExtendedAudioTrackExtractor.cpp:218-224 | the OS's answers left after the finaliser |
| WavWriter.CloseLeavesOpen | core/data_provider/ExtendedAudioTrackExtractor.cpp:218-224 | the handle stays open exactly when a call before the final close was refused |
| WavWriter.CloseData | core/data_provider/ExtendedAudioTrackExtractor.cpp:218-223 | the bytes after the finaliser: unpatched, riff size patched, or both sizes patched, by the writes granted |
| WavWriter.ClosePos | core/data_provider/ExtendedAudioTrackExtractor.cpp:218-224 | the position after the finaliser: where the last granted seek or write left it, 0 once closed |
| AudioTrackExtractor.FirstPcmBlockRollsOver | core/data_provider/ExtendedAudioTrackExtractor.cpp:31 | the first PCM block always starts a file |
| AudioTrackExtractor.NeedsRollover | core/data_provider/ExtendedAudioTrackExtractor.cpp:55 | a new file is started when the descriptors are incompatible or the projected position reaches 2^40 |
| AudioTrackExtractor.RolloverAtCap | core/data_provider/ExtendedAudioTrackExtractor.cpp:54-55 | for compatible blocks the cap alone decides: no rollover one byte short of 2^40, rollover at and past it |
| AudioTrackExtractor.ExtendedAudioTrackExtractor.constructor | core/data_provider/ExtendedAudioTrackExtractor.cpp:30-31 | the extractor starts from the undefined descriptor with no file open and no file counted |
| AudioTrackExtractor.ExtendedAudioTrackExtractor.StartSegment | core/data_provider/ExtendedAudioTrackExtractor.cpp:56-70 | closes and re-creates the same path; the status is the creation's first refusal over the OS's answers the close left; on success adopts the descriptor, adds one to both counters with 32-bit wrap, resets the segment and leaves the header image at position 44; on failure changes no field and leaves the file as the close and the failed creation left it |
| AudioTrackExtractor.ExtendedAudioTrackExtractor.AppendBlock | core/data_provider/ExtendedAudioTrackExtractor.cpp:73-92 | appends the block's copied frames with the status, bytes and position of `WavWriter.WriteWavAudioData`; when every frame was written, adds the block's sample count modulo 2^64 and starts the segment at the timestamp if it held no samples; on failure the segment is unchanged |
| AudioTrackExtractor.ExtendedAudioTrackExtractor.OnAudioRead | core/data_provider/ExtendedAudioTrackExtractor.cpp:37-95 | a failed read returns false and a non-PCM block returns true, both changing nothing; a rollover is tried exactly when the rule says, and fails exactly when the OS refuses the creation, changing no counter or descriptor; a failed creation leaves the handle open or closed, the queue and the bytes as the close and the creation left them; the write then succeeds exactly when the OS grants every frame write, and the file holds the granted frames at the position, with the handle open as it was after any rollover and the path kept when there was none; a successful rollover counts one file in both counters and a successful write adds the block's sample count |
| AudioTrackExtractor.ExtendedAudioTrackExtractor.Dispose | core/data_provider/ExtendedAudioTrackExtractor.cpp:33-35 | the destructor has the effect of the finaliser on the current file: handle, bytes, position and answers left as `WavWriter.CloseWavFile` leaves them, fully finalised when all five calls are granted |
| AudioTrackExtractor.OutputPath | core/data_provider/ExtendedAudioTrackExtractor.cpp:234 | the path ends in ".w64" and starts with the given path; it is the given path exactly when that ends in ".w64" in any letter case, otherwise the given path plus ".w64" |
| AudioTrackExtractor.JsonPath | core/data_provider/ExtendedAudioTrackExtractor.cpp:235 | the summary path is the WAV path followed by exactly ".json", in lower case |
| AudioTrackExtractor.OutputPathIdempotent | core/data_provider/ExtendedAudioTrackExtractor.cpp:234 | applying the suffix rule twice is applying it once |
| AudioTrackExtractor.ToLower | core/data_provider/ExtendedAudioTrackExtractor.cpp:234 | ASCII lower case, every other character unchanged |
| AudioTrackExtractor.SameIgnoringCase | core/data_provider/ExtendedAudioTrackExtractor.cpp:234 | two strings equal up to ASCII case |
| AudioTrackExtractor.EndsWith | core/data_provider/ExtendedAudioTrackExtractor.cpp:234 | `helpers::endsWith`: the last characters are the suffix, ignoring ASCII case |
| AudioTrackExtractor.OutputPathIgnoresCase | core/data_provider/ExtendedAudioTrackExtractor.cpp:234 | "take.W64" and "take.w64" are kept, "take.wav" becomes "take.wav.w64" |
| Scenarios.Mono16kFields | core/data_provider/ExtendedAudioTrackExtractor.cpp:174-189 | a 16-bit mono 16 kHz header declares PCM, byte rate 32000 and block align 2 |
| Scenarios.Stereo16kFields | core/data_provider/ExtendedAudioTrackExtractor.cpp:174-189 | a 16-bit stereo 16 kHz header declares PCM, byte rate 64000 and block align 4 |
| Scenarios.Verbatim | core/data_provider/ExtendedAudioTrackExtractor.cpp:196-211 | a packed 3200-byte block of either descriptor is copied verbatim |
| Scenarios.RolloverBlock | core/data_provider/ExtendedAudioTrackExtractor.cpp:55-77 | a block that needs a rollover leaves a file holding the header and the block's bytes, counted once more |
| Scenarios.NextBlock | core/data_provider/ExtendedAudioTrackExtractor.cpp:73-77 | a compatible block under the cap is appended to the open file |
| Scenarios.Finish | core/data_provider/ExtendedAudioTrackExtractor.cpp:213-225 | finalising a header and its samples gives a file that reads as the created header with exact sizes, with the samples after it |
| Scenarios.OneSegment | core/data_provider/ExtendedAudioTrackExtractor.cpp:37-95 | three mono blocks then finalising give one file of riffSize 9636 and dataSize 9600 that holds the three blocks, counted once |
| Scenarios.FormatChange | core/data_provider/ExtendedAudioTrackExtractor.cpp:55-60 | a mono block then a stereo block re-create the same path: the file holds only the stereo block under a stereo header, and two files are counted |

## Left out

- Record reading (`record.reader->read`) is VRS container I/O. It becomes the `audio` and `readStatus` parameters of `OnAudioRead`.
- The late/early jitter classification (`ExtendedAudioTrackExtractor.cpp:79-91`) is floating-point and only logs. Only the `segmentStart` assignment of its else branch is modelled.
- Console output is left out, including the malformed-block message of the copy loop.
- `getSummary` (`ExtendedAudioTrackExtractor.cpp:104-160`) first finalises the current file (cpp:112), which in the normal flow is where finalisation happens, leaving the destructor a no-op. That step is the finaliser, modelled by `WavWriter.CloseWavFile` and, on the extractor, by `AudioTrackExtractor.ExtendedAudioTrackExtractor.Dispose`. The rest of `getSummary` is JSON serialisation of statistics that no code shown ever assigns, and is left out.
- `onUnsupportedBlock` (`ExtendedAudioTrackExtractor.cpp:97-102`) only logs.
- `stop` (`ExtendedAudioTrackExtractor.cpp:227-231`) is never called by the modelled code.
- From `extractAudioTrack` only the path rule is modelled. Its directory creation and checks, stream discovery, reader iteration and image-time scan are OS and VRS I/O.
- The Wave64 header size (`ExtendedAudioTrackExtractor.cpp:26`) is declared but never used.
- ExtendedAudioTrackExtractor.h declares a `wav64` argument for the constructor and `createWavFile`. The .cpp has none, and the model follows the .cpp.
- projectaria_tools/utils/vrs_to_wav.py is argument parsing and a call into the native module.
- The VRS descriptor accessors are not part of this model. Their widths are taken from the fields they feed: channel count and bit depth 16-bit, rate, stride and sample count 32-bit.
- `DiskFiles.NotOpen` stands for VRS's not-open error code, whose value is not part of this model. The file model holds only the bytes of the current path, with no directory or other files.
- WavWriter.WriteWavAudioData: requires `CopyInBounds`, that every frame it copies ends inside the buffer. The code checks only a frame's start offset, so a final partial frame is an out-of-bounds read, which the model does not describe.
- AudioTrackExtractor.ExtendedAudioTrackExtractor.OnAudioRead: requires `CopyInBounds` for PCM blocks that were read, for the reason above.
- AudioTrackExtractor.ExtendedAudioTrackExtractor.AppendBlock: requires `CopyInBounds`, for the same reason.
- AudioTrackExtractor.OutputPath: the definition of VRS's `helpers::endsWith` is not part of this model. The model takes it to compare the suffix ignoring the case of ASCII letters, as `strncasecmp` does, with no other case folding.
