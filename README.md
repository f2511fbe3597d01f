# MOI IMA-ADPCM codec, modelled in Dafny

This project models the IMA-ADPCM codec library `libs/moicodec` of MOI.

The encoder turns 16-bit PCM samples into 4-bit codes with a two-field state machine. The state is the previous sample and the step-size index. It packs the codes into mono blocks (two codes per byte, low half first) or stereo blocks (per group of eight samples, one little-endian word per channel). In front of the blocks it writes a 60-byte RIFF/WAVE header for format tag 17. The decoder reads the header back by walking its chunks with a cursor, then unpacks each block with the mirror state machine into per-channel sample buffers.

The codec follows the IMA Digital Audio Focus and Technical Working Group's 1992 "Recommended Practices for Enhancing Digital Audio Compatibility in Multimedia Systems". The container is the `WAVE_FORMAT_IMA_ADPCM` layout of the Microsoft/IBM Multimedia Programming Interface and Data Specifications 1.0. The encoder picks each code by direct division rather than by the standard's successive approximation. The decoder reconstructs with the exact form `(step * (2 * delta + 1)) >> 3`.

Modules, one per source file:

- `MoiTypes` (`moi_types.dfy`, for `include/moi.h`): fixed-width integer types, the API result codes, the header and the encode parameter records, and the constants.
- `MoiInternal` (`moi_internal.dfy`, for `moi_internal.h`): the macros, the internal error codes, their mapping onto API results, and the two lookup tables.
- `ByteArray` (`byte_array.dfy`): little-endian puts and gets with a cursor. They stand for the library's byte-array helpers; `byte_array.h` is not part of this model.
- `MoiEncoder` (`moi_encoder.dfy`, for `moi_encoder.c`):
  - the core encoder class;
  - the mono and stereo block packers, which write into an `array<u8>`;
  - parameter conversion;
  - the header writer;
  - the encoder handle class with `SetEncodeParameter`, `EncodeBlock` and the `EncodeWhole` loop.
- `MoiDecoder` (`moi_decoder.dfy`, for `moi_decoder.c`):
  - the core decoder class;
  - the header reader: a function and a cursor-walking method proved equal to it;
  - the mono and stereo block decoders, which fill `array<i16>` channel buffers in place;
  - the decoder handle class with `DecodeBlock` and the `DecodeWhole` loop.
- `MoiRoundTrip` (`moi_round_trip.dfy`): properties that relate the encoder and the decoder.
  - Lockstep: the two state machines move in step.
  - Header round trip: the written header reads back.
  - Block round trip: a mono or stereo block decodes to the encoder's reconstruction.

Each imperative operation is a method proved against a pure specification function. Examples: `EncodeBlockMono` against `MonoBlock`; `DecodeBlockStereo` against `UnpackStereo`; `DecodeHeader` against `ParseHeader`. The properties are then proved about those functions.

C's unsigned 32-bit arithmetic is written out with `U32` (reduction modulo 2^32) wherever it can wrap. This covers the RIFF and data chunk sizes, the decoder's sample counts and the sample count computed when there is no `fact` chunk.

## Model

| member | source | states |
|---|---|---|
| MoiTypes.U16ToI16 | libs/moicodec/src/moi_decoder.c:283 | A 16-bit field read from a block header becomes the signed sample whose two's-complement bits it is. |
| MoiTypes.I16RoundTrip | libs/moicodec/src/moi_encoder.c:288 | Writing a signed sample as an unsigned 16-bit field and reading it back gives the same sample. |
| MoiTypes.ApiCode | include/moi.h:22-30 | The seven API results have codes below 7, and OK is the only one with code 0. |
| MoiTypes.ApiCodeInjective | include/moi.h:22-30 | Distinct API results have distinct codes. |
| MoiInternal.RoundUp | libs/moicodec/include/moi_internal.h:7-8 | For n > 0, the result is the least multiple of n that is at least v. |
| MoiInternal.MaxVal | libs/moicodec/include/moi_internal.h:10-11 | Returns one of its arguments, and it is at least both. |
| MoiInternal.MinVal | libs/moicodec/include/moi_internal.h:13-14 | Returns one of its arguments, and it is at most both. |
| MoiInternal.InnerVal | libs/moicodec/include/moi_internal.h:16-18 | Clamps to the inclusive range [lo, hi]: the value itself when inside, lo below, hi above. |
| MoiInternal.ErrorCode | libs/moicodec/include/moi_internal.h:31-39 | Six internal error codes below 6, with OK the only one coded 0. |
| MoiInternal.ToApiResult | libs/moicodec/src/moi_decoder.c:429-441 | Each internal error maps to the API result of the same name, iff; NG and insufficient data map to NG; INSUFFICIENT_DATA and PARAMETER_NOT_SET are never produced. |
| MoiInternal.QuantisedDifferenceIsQuotient | libs/moicodec/src/moi_decoder.c:238-239 | The shift form of the quantised difference equals step*(2*delta+1) divided by 8. |
| MoiInternal.IndexTableShape | libs/moicodec/include/moi_internal.h:41-45 | The index adjustment depends only on the low three bits of the code: -1 for magnitudes 0-3, and 2*(m-3) for magnitudes m of 4-7. |
| MoiInternal.StepsizeTableAdjacent | libs/moicodec/include/moi_internal.h:47-61 | The step table runs from 7 to 32767, and each entry is below the next. |
| MoiInternal.StepsizeTableIncreasing | libs/moicodec/include/moi_internal.h:47-61 | The step table is strictly increasing over all 89 indices. |
| ByteArray.FourCC | libs/moicodec/src/moi_encoder.c:86-90 | A four-character identifier is written as four bytes which, read back as a little-endian word, give the word MOI_CHECK_FOURCC compares with. |
| ByteArray.Le16RoundTrip | libs/moicodec/src/moi_decoder.c:125 | Reading 16-bit little-endian bytes gives back the value written. |
| ByteArray.Le32RoundTrip | libs/moicodec/src/moi_decoder.c:97 | Reading 32-bit little-endian bytes gives back the value written. |
| ByteArray.GetLe32Bytes | libs/moicodec/src/moi_decoder.c:97 | Re-encoding a 32-bit little-endian read gives the bytes that were read. |
| ByteArray.Put | libs/moicodec/src/moi_encoder.c:87-92 | Writes the bytes at the cursor, advances the cursor past them, and leaves everything before and after unchanged. |
| MoiEncoder.MagnitudeIsQuotient | libs/moicodec/src/moi_encoder.c:230 | The code magnitude is min(4*abs(diff)/step, 7). |
| MoiEncoder.EncodeStepMeaning | libs/moicodec/src/moi_encoder.c:207-260 | Bit 3 of the code is set iff sample < prev. The reconstruction moves toward the sample by at most twice the step. The new index is the old index plus the table entry, clamped to [0, 88]. |
| MoiEncoder.CoreEncoder.constructor | libs/moicodec/src/moi_encoder.c:183-187 | A fresh core encoder has previous sample 0 and index 0. |
| MoiEncoder.CoreEncoder.EncodeSample | libs/moicodec/src/moi_encoder.c:207-260 | Returns the code and moves the fields to the state of one encoding step. |
| MoiEncoder.EncodeAppend | libs/moicodec/src/moi_encoder.c:293-300 | Encoding xs ++ ys equals encoding xs, then ys from the state reached; codes and final state both. |
| MoiEncoder.MonoBlock | libs/moicodec/src/moi_encoder.c:284-300 | A mono block is 4 + n/2 bytes, and its first four bytes are the block header of the starting state. |
| MoiEncoder.StereoBlock | libs/moicodec/src/moi_encoder.c:329-365 | A stereo block is 8 + 8*ceil((n-1)/8) bytes: the left and the right block headers, then the groups. |
| MoiEncoder.StereoBytesAppend | libs/moicodec/src/moi_encoder.c:342-365 | Packing two runs of groups one after the other gives the concatenation of their packings. |
| MoiEncoder.EncodeBlockMono | libs/moicodec/src/moi_encoder.c:263-305 | Fails INSUFFICIENT_DATA iff space < n/2 + 4, and then changes nothing. Otherwise it writes exactly MonoBlock at the offset, reports 4 + n/2, leaves the rest of the buffer alone and leaves the core in MonoBlockEnd. |
| MoiEncoder.EncodeBlockStereo | libs/moicodec/src/moi_encoder.c:308-370 | Fails INSUFFICIENT_DATA iff space < 8 + 8*ceil((n-1)/8) (the corrected guard), and then changes nothing. Otherwise it writes exactly StereoBlock, and both cores end in StereoBlockEnd. |
| MoiEncoder.PackStereoBlock | libs/moicodec/src/moi_encoder.c:329-368 | The header and group loops write StereoBlock and nothing else. |
| MoiEncoder.StereoGuardAsWrittenTooWeak | libs/moicodec/src/moi_encoder.c:325 | With n + 4 bytes of space, the source's guard passes, yet the block needs at least n + 7 bytes. |
| MoiEncoder.StereoGuardCorrected | libs/moicodec/src/moi_encoder.c:324-327 | The corrected guard passes iff the stereo block fits in the space. |
| MoiEncoder.SamplesPerBlockFits | libs/moicodec/src/moi_encoder.c:455-460 | The per-block quotient, taken in 16 bits, stays below 0xFFFF, so the +1 cannot wrap to 0. |
| MoiEncoder.SamplesPerBlock | libs/moicodec/src/moi_encoder.c:453-460 | At least 1, and equal to (block_size - 4*ch)*8/(4*ch) + 1 when that fits in 16 bits. |
| MoiEncoder.ConvertParameterToHeader | libs/moicodec/src/moi_encoder.c:420-468 | Succeeds iff bits = 4, ch >= 1 and block_size > 4*ch; otherwise INVALID_FORMAT. On success it copies the parameter fields, sets header size 60 and the sample count, derives samples per block, and sets bytes/sec = (block_size * rate mod 2^32) / spb, so bytes/sec * spb is at most that product. |
| MoiEncoder.ConvertIgnoresSearch | libs/moicodec/src/moi_encoder.c:420-468 | The header does not depend on the search beam width or search depth. |
| MoiEncoder.FullMonoBlock | libs/moicodec/src/moi_encoder.c:453-462 | For a valid mono parameter with block_size <= 0x8003, a full block of spb samples reads exactly spb inputs and is exactly block_size bytes. |
| MoiEncoder.FullStereoBlock | libs/moicodec/src/moi_encoder.c:453-462 | For stereo, spb = block_size - 7. A full block is exactly block_size bytes iff block_size is a multiple of 8, and otherwise at most 7 bytes more. |
| MoiEncoder.StereoBlockOverflowsExample | libs/moicodec/src/moi_encoder.c:453-462 | A stereo parameter with block size 17 is accepted with spb 10, yet a full block takes 24 bytes. |
| MoiEncoder.MonoSamplesPerBlockWraps | libs/moicodec/src/moi_encoder.c:455-460 | For a mono block size above 0x8003, spb wraps in 16 bits to 2*(block_size - 4) - 0x10000 + 1, and a full block is then block_size - 0x8000 bytes. |
| MoiEncoder.BlocksWithinBlockSize | libs/moicodec/src/moi_encoder.c:555 | When the block size fills (mono up to 0x8003 bytes, stereo a multiple of 8), every block of at most spb samples takes at most block_size bytes, and a full block takes exactly block_size. |
| MoiEncoder.StreamBlocksWithinBlockSize | libs/moicodec/src/moi_encoder.c:535-556 | For such a block size, every block the whole-stream loop packs, of min(spb, remaining) samples, takes at most block_size bytes, so the assertion at line 555 holds. |
| MoiEncoder.DataChunkSize | libs/moicodec/src/moi_encoder.c:74-81 | data_chunk_size = block_size*(n/spb + 1) - ceil((spb - n mod spb)*bits/8) whenever the product fits in 32 bits. |
| MoiEncoder.ChunkNoWrap | libs/moicodec/src/moi_encoder.c:76-81 | When the product fits, the 32-bit computation equals the exact one. |
| MoiEncoder.DataSizeMonotone | libs/moicodec/src/moi_encoder.c:15-16 | The byte size of a sample count grows with the count. |
| MoiEncoder.HeaderBytes | libs/moicodec/src/moi_encoder.c:83-146 | The header image is 60 bytes. |
| MoiEncoder.HeaderWritten | libs/moicodec/src/moi_encoder.c:107-121 | The writer gets through 22, 34 or 60 bytes, and it reaches 60 iff channels <= 2 and bits = 4. |
| MoiEncoder.EncodeHeader | libs/moicodec/src/moi_encoder.c:52-150 | Failure order: null data gives INVALID_ARGUMENT; fewer than 60 bytes give INSUFFICIENT_DATA; an spb whose data does not fit the block size gives INVALID_FORMAT; all three leave the buffer untouched. Otherwise it writes the header image up to the point reached and leaves the rest alone; OK iff it wrote all 60 bytes, otherwise INVALID_FORMAT. |
| MoiEncoder.ConvertedSizesConsistent | libs/moicodec/src/moi_encoder.c:69-72 | Every header produced by conversion passes the writer's size check. |
| MoiEncoder.ChannelPackerPacks | libs/moicodec/src/moi_encoder.c:389-400 | The block packer used by the whole-stream loop packs mono or stereo blocks as EncodeBlock does. |
| MoiEncoder.Encoder.constructor | libs/moicodec/src/moi_encoder.c:183-187 | A fresh handle: two distinct zeroed core encoders, parameter not set. |
| MoiEncoder.Encoder.SetEncodeParameter | libs/moicodec/src/moi_encoder.c:471-494 | INVALID_FORMAT with the handle unchanged when conversion fails; otherwise OK, the parameter stored and marked set. |
| MoiEncoder.Encoder.EncodeBlock | libs/moicodec/src/moi_encoder.c:373-417 | INVALID_FORMAT with nothing changed for channel counts other than 1 and 2. Otherwise OK iff the block fits, with exactly the block's bytes and end states; on failure NG with nothing changed. |
| MoiEncoder.Encoder.EncodeStream | libs/moicodec/src/moi_encoder.c:532-557 | The block loop writes, after the header, the concatenation of min(spb, remaining)-sample blocks. It returns OK iff they all fit, with the write offset equal to 60 plus their length. The buffer past the write offset is unchanged. |
| MoiEncoder.Encoder.EncodeNextBlock | libs/moicodec/src/moi_encoder.c:535-557 | One iteration strictly advances progress, keeps it within n, and keeps what has been written a prefix of the final stream. The buffer past the new offset is unchanged. |
| MoiEncoder.Encoder.EncodeBlockAt | libs/moicodec/src/moi_encoder.c:536-549 | OK iff the packed block from the current progress fits after the offset. On OK the buffer is the old bytes up to the offset, then the block, then the old bytes after it, and the cores end in the block's end states. Otherwise NG, with the buffer and both cores unchanged. |
| MoiEncoder.Encoder.EncodeWhole | libs/moicodec/src/moi_encoder.c:497-562 | Null data gives INVALID_ARGUMENT; no parameter gives PARAMETER_NOT_SET; a failed conversion gives INVALID_FORMAT. In all three, the buffer and both core states are unchanged. A buffer under 60 bytes gives INSUFFICIENT_DATA, with buffer and cores unchanged. More than 2 channels gives INVALID_FORMAT after the first 22 header bytes, with the cores unchanged. Otherwise OK iff the header and all blocks fit. On OK the output is header ++ all blocks, of size 60 + their length; the buffer past it is unchanged, and the cores end in the last block's states. Otherwise the result is NG. |
| MoiEncoder.Encoder.EncodeHeaderAndBlocks | libs/moicodec/src/moi_encoder.c:527-561 | Header then blocks, with the result cases, contents, output size, untouched suffix and core states stated for EncodeWhole. |
| MoiDecoder.DecodeStepMeaning | libs/moicodec/src/moi_decoder.c:215-256 | Bit 3 of the code decides the direction. Without clipping, the sample moves by exactly (step*(2*(code&7)+1))>>3; it always moves by at most twice the step. The index changes by the table entry, clamped to [0, 88]. |
| MoiDecoder.CoreDecoder.constructor | libs/moicodec/src/moi_decoder.c:58-59 | A fresh core decoder has sample 0 and index 0. |
| MoiDecoder.CoreDecoder.DecodeSample | libs/moicodec/src/moi_decoder.c:215-256 | Moves the fields by one decoding step and returns the new sample. |
| MoiDecoder.DecodeAppend | libs/moicodec/src/moi_decoder.c:294-309 | Decoding ns ++ ms equals decoding ns, then ms from the state reached. |
| MoiDecoder.DecodeBySteps | libs/moicodec/src/moi_decoder.c:294-309 | A recorded run of states, each one step after the last, is what Decode computes. |
| MoiDecoder.FourCCRead | libs/moicodec/src/moi_decoder.c:11-12 | An identifier's bytes read as a little-endian word equal the word MOI_CHECK_FOURCC compares with. |
| MoiDecoder.ParseHeader | libs/moicodec/src/moi_decoder.c:79-212 | Every error is INVALID_FORMAT or INSUFFICIENT_DATA. On success: RIFF, WAVE and `fmt ` are present; fmt size < data size; tag 17; channels <= 2; extra size 2; the fields are read from their offsets; header_size points just past a `data` chunk header. Once the fixed fields pass, the outcome follows from where ChunkWalk from offset 40 ends. A bad `fact` chunk gives INVALID_FORMAT. Running past the end of the data, or a `data` chunk without its size field, gives INSUFFICIENT_DATA. Otherwise the walk reaches the first `data` chunk at offset `at`, and header_size is at + 8. The sample count is the count of the last `fact` chunk before it. Without one, a zero block_size gives INVALID_FORMAT; else the count is (spb * ((data_chunk_size / block_size + 1) mod 2^32)) mod 2^32. |
| MoiDecoder.ParseChunks | libs/moicodec/src/moi_decoder.c:159-207 | The chunk loop changes only the sample count and header size, and stops just past a `data` chunk header inside the data. Its outcome is the loop's tail (moi_decoder.c:195-207, `WalkOutcome`) applied to where ChunkWalk ends: INSUFFICIENT_DATA off the end, INVALID_FORMAT at a bad `fact` chunk, and otherwise header_size = offset of the first `data` chunk + 8, with the `fact` / no-`fact` sample-count rule. |
| MoiDecoder.ChunkWalk | libs/moicodec/src/moi_decoder.c:161-193 | Looking only at chunk identifiers and sizes, the walk either ends at a `data` chunk identifier inside the data, at or after its start, or ends at a bad `fact` chunk or off the end. Once a `fact` chunk has been read, the walk still holds a sample count when it reaches `data`. |
| MoiDecoder.NoFactSampleCount | libs/moicodec/src/moi_decoder.c:195-207 | With the `data` chunk right after fmt: header_size 48, and num_samples = (spb * ((data_chunk_size / block_size + 1) mod 2^32)) mod 2^32. |
| MoiDecoder.FactSampleCount | libs/moicodec/src/moi_decoder.c:166-185 | With a 4-byte `fact` chunk right after fmt and then `data`: header_size 60, and num_samples is the fact chunk's count. |
| MoiDecoder.ParseHeaderErrors | libs/moicodec/src/moi_decoder.c:97-178 | A wrong RIFF, WAVE or `fmt ` identifier, a tag other than 17, more than 2 channels, or an extra size other than 2 gives INVALID_FORMAT. A fmt size at least the data size gives INSUFFICIENT_DATA. Once the fixed fields pass, any `fact` chunk the walk reaches whose size is not 4 gives INVALID_FORMAT, and a walk that runs off the end of the data gives INSUFFICIENT_DATA. A first chunk that is such a `fact` chunk is one instance. |
| MoiDecoder.DecodeHeader | libs/moicodec/src/moi_decoder.c:79-212 | The cursor walk returns exactly what ParseHeader says; the caller's header is replaced only on OK. |
| MoiDecoder.ScanChunks | libs/moicodec/src/moi_decoder.c:159-211 | The `while (1)` chunk loop returns exactly what ParseChunks says. |
| MoiDecoder.FinishChunks | libs/moicodec/src/moi_decoder.c:195-211 | At the `data` chunk, skipping its header and deriving the sample count when no `fact` chunk was seen return exactly what ParseChunks says; the caller's header is kept on an error. |
| MoiDecoder.MonoNibblesAt | libs/moicodec/src/moi_decoder.c:296-298 | Byte j gives code 2j from its low half and code 2j+1 from its high half. |
| MoiDecoder.StereoWordAt | libs/moicodec/src/moi_decoder.c:357-370 | Group j of channel c holds the codes of the word at start + 8j + 4c. |
| MoiDecoder.MonoCount | libs/moicodec/src/moi_decoder.c:276-280 | (size - 4)*2 + 1 in 32 bits, capped by the buffer: at least 1 and at most the buffer, and exact when nothing wraps. Its codes lie inside the block. |
| MoiDecoder.StereoCount | libs/moicodec/src/moi_decoder.c:334-338 | (size - 8) + 1 in 32 bits, capped by the buffer: exactly size - 7 when that fits, and 0 for a 7-byte block. |
| MoiDecoder.UnpackMono | libs/moicodec/src/moi_decoder.c:259-314 | A present header with a nonzero reserved byte is INVALID_FORMAT, whatever the length of the codes. On OK: the reserved byte is 0, MonoCount samples are produced, and the first is the header sample. On an error nothing is produced. The second channel is never touched. |
| MoiDecoder.UnpackStereo | libs/moicodec/src/moi_decoder.c:317-390 | Present headers with a nonzero reserved byte are INVALID_FORMAT, whatever the length of the codes. On OK: both reserved bytes are 0, StereoCount samples per channel are produced (at least the header sample), and the first of each is its header sample. On an error nothing is produced. |
| MoiDecoder.UnpackBlock | libs/moicodec/src/moi_decoder.c:393-444 | Never produces more than the buffer holds; mono leaves the second channel alone. |
| MoiDecoder.DecodeMonoPairs | libs/moicodec/src/moi_decoder.c:293-301 | The pair loop decodes two codes per byte, low half first, writing sample after sample, and stops within two samples of the count. |
| MoiDecoder.MonoPairGuardAsWrittenOverruns | libs/moicodec/src/moi_decoder.c:276-294 | For a 4-byte block or a 1-sample buffer the count is 1, `count - 2` wraps to 0xFFFFFFFF, and the source's loop guard lets a pair through past the count. |
| MoiDecoder.MonoPairGuardCorrected | libs/moicodec/src/moi_decoder.c:294 | The corrected guard agrees with the source's for counts >= 2, and never lets a pair run past the count. |
| MoiDecoder.DecodeMonoTail | libs/moicodec/src/moi_decoder.c:303-309 | The tail decodes the last one or two codes, so all count samples are written. |
| MoiDecoder.DecodeMonoSamples | libs/moicodec/src/moi_decoder.c:290-309 | The buffer receives the header sample, then the decoding of the block's first count - 1 codes; the core ends in the decoding's final state. |
| MoiDecoder.DecodeBlockMono | libs/moicodec/src/moi_decoder.c:259-314 | The error, the count, the core state and the buffer contents are exactly those UnpackMono gives. |
| MoiDecoder.DecodeWord | libs/moicodec/src/moi_decoder.c:362-380 | The eight samples of a word, decoded in order. |
| MoiDecoder.CopyWord | libs/moicodec/src/moi_decoder.c:381-383 | Copies only the samples below the count. |
| MoiDecoder.DecodeStereoGroups | libs/moicodec/src/moi_decoder.c:356-385 | The group loop decodes both channels' words group by group until the count is reached. |
| MoiDecoder.DecodeStereoSamples | libs/moicodec/src/moi_decoder.c:351-385 | Each buffer receives its header sample, then the first count - 1 samples of its channel's decoding; both cores decode all codes in the groups. |
| MoiDecoder.DecodeBlockStereo | libs/moicodec/src/moi_decoder.c:317-390 | The error, the count, both core states and both buffers are exactly those UnpackStereo gives. |
| MoiDecoder.ChannelUnpackerUnpacks | libs/moicodec/src/moi_decoder.c:415-427 | The unpacker used by the whole-file loop is UnpackBlock for the header's channel count. |
| MoiDecoder.ChannelUnpackerAdvances | libs/moicodec/src/moi_decoder.c:478-497 | Every block reports and writes at most the room left. A successful block either consumes bytes or reports a sample, so the loop advances. |
| MoiDecoder.PendingStep | libs/moicodec/src/moi_decoder.c:478-497 | One loop step keeps progress within the buffer and advances progress or the read offset. An error ends the stream with that error; otherwise the rest of the stream is still ahead. |
| MoiDecoder.DecodedStream | libs/moicodec/src/moi_decoder.c:475-498 | Decoding the blocks after the header changes neither buffer's length, and leaves every cell at or past buffer_num_samples unchanged in both channels. |
| MoiDecoder.UnpacksKeepsBeyond | libs/moicodec/src/moi_decoder.c:475-498 | The block loop, from any point on, writes no cell at or past buffer_num_samples in either channel. |
| MoiDecoder.Decoder.constructor | libs/moicodec/src/moi_decoder.c:58-59 | A fresh handle: a zero header and two distinct zeroed core decoders. |
| MoiDecoder.Decoder.DecodeBlock | libs/moicodec/src/moi_decoder.c:393-444 | The result is the API mapping of UnpackBlock's error; the count, states and buffers are UnpackBlock's. |
| MoiDecoder.Decoder.DecodeBlocks | libs/moicodec/src/moi_decoder.c:475-498 | The block loop from header_size, with blocks of min(remaining, block_size) bytes, ends in exactly the stream Unpacks describes. |
| MoiDecoder.Decoder.DecodeNextBlock | libs/moicodec/src/moi_decoder.c:478-497 | One iteration either ends the stream with its error or strictly advances and keeps the rest of the stream ahead. |
| MoiDecoder.Decoder.DecodeBlockAt | libs/moicodec/src/moi_decoder.c:480-492 | One block read at the offset is min(remaining, block_size) bytes and is written at the progress column. |
| MoiDecoder.Decoder.DecodeWhole | libs/moicodec/src/moi_decoder.c:447-502 | Header errors are returned with nothing changed. A buffer with fewer channels or samples than the header gives INSUFFICIENT_BUFFER with the header stored and nothing else changed. Otherwise the header is stored and the result, states and buffers are those of DecodedStream. On every path, every cell at or past buffer_num_samples is unchanged in both buffers. |
| MoiRoundTrip.Lockstep | libs/moicodec/src/moi_decoder.c:224-255 | Decoding the code the encoder emits gives exactly the encoder's new state: same sample, same index. |
| MoiRoundTrip.LockstepRun | libs/moicodec/src/moi_encoder.c:237-257 | Decoding an encoded run reproduces the encoder's reconstruction, sample for sample, and ends in the encoder's final state. |
| MoiRoundTrip.ReconstructionPrefix | libs/moicodec/src/moi_encoder.c:243-249 | The reconstruction of a prefix is the prefix of the reconstruction. |
| MoiRoundTrip.DecodedPrefix | libs/moicodec/src/moi_decoder.c:242-249 | The first k decoded samples are the reconstruction of the first k inputs. |
| MoiRoundTrip.HeaderRoundTrip | libs/moicodec/src/moi_decoder.c:79-212 | Reading back a written header, whatever follows it, gives all its fields unchanged, with header_size 60. |
| MoiRoundTrip.MonoNibblesPackBytes | libs/moicodec/src/moi_decoder.c:296-298 | Unpacking packed mono bytes gives back the codes. |
| MoiRoundTrip.WordNibblesPackWord | libs/moicodec/src/moi_decoder.c:362-370 | Splitting a packed stereo word gives back its eight codes. |
| MoiRoundTrip.PackWordNibbles | libs/moicodec/src/moi_decoder.c:362-370 | The converse: every 32-bit word is the packing of the eight codes the decoder splits it into. |
| MoiRoundTrip.StereoNibblesOf | libs/moicodec/src/moi_decoder.c:357-370 | Reading each channel's codes from packed stereo groups gives back exactly the codes packed for that channel. |
| MoiRoundTrip.MonoBlockRoundTrip | libs/moicodec/src/moi_decoder.c:259-314 | A mono block of n samples decodes with OK to n samples: the first input, then the encoder's reconstruction. The decoder ends in the encoder's state. |
| MoiRoundTrip.StereoBlockRoundTrip | libs/moicodec/src/moi_decoder.c:317-390 | A stereo block of n samples decodes with OK to n samples per channel: each channel's first input, then its reconstruction. Both decoders end in the encoders' states. |
| MoiRoundTrip.ChannelRoundTrip | libs/moicodec/src/moi_decoder.c:372-383 | The first n - 1 decoded codes of a channel reproduce its reconstruction, even when more codes were encoded. |

## Left out

- `MOIEncoder_Create`, `MOIDecoder_Create`, `Destroy` and `CalculateWorkSize` manage memory: malloc, alignment and free. Only the zeroed state they leave is modelled, as the class constructors.
- Null pointers: only a null output buffer for `EncodeHeader` and `EncodeWhole` is modelled (`array?`). Dafny references cannot express the other null checks, so those `INVALID_ARGUMENT` branches are left out.
- `byte_array.h` is not part of this model. `ByteArray` states the little-endian layout its callers rely on.
- The `fprintf` diagnostics in `DecodeHeader` are left out.
- `MoiEncoder.EncodeBlockMono`, `MoiEncoder.EncodeBlockStereo` and `MoiEncoder.Encoder.EncodeWhole` require that every input sample the source reads exists. The source reads one sample past an even mono count and up to seven past a stereo count. Those reads are out of bounds in C and have no value to model.
- `MoiEncoder.EncodeBlockStereo`: the source checks space against n + 4 bytes. The model uses the corrected guard (see Findings).
- `MoiEncoder.ConvertParameterToHeader`: zero channels, which divides by zero in the source, fails with INVALID_FORMAT.
- `MoiEncoder.EncodeHeader`: zero samples per block, which divides by zero in the source, fails with INVALID_FORMAT.
- `MoiEncoder.Encoder.EncodeWhole`: when a block does not fit, the result is NG. The model does not state the buffer contents or core states left by the blocks written before.
- `MoiDecoder.ParseHeader`: the source reads the fixed 40-byte prefix, and each chunk identifier and size, without checking the length. Here such reads fail with INSUFFICIENT_DATA. A header with no `fact` chunk and a zero block size, which divides by zero in the source, fails with INVALID_FORMAT.
- `MoiDecoder.UnpackMono` and `MoiDecoder.UnpackStereo`:
  - A block shorter than its header fails with INSUFFICIENT_DATA; in the source its count wraps. A block whose headers pass but whose codes run past the end of the data also fails with INSUFFICIENT_DATA, after the headers are checked; the source reads past the end there. `DecodeBlock` maps both to NG.
  - A step-size index above 88 in a block header fails with INVALID_FORMAT. The source indexes the step table with it unchecked.
  - The source's mono tail reads one byte even when it decodes nothing from it. The model reads only the bytes whose codes it decodes.
- `MoiDecoder.DecodeBlockMono`: the source's pair-loop guard is replaced by the corrected one (see Findings).
- `MoiDecoder.Decoder.DecodeBlock` requires a buffer of at least one sample. The source never calls the block decoders with an empty buffer.
- `MoiDecoder.Decoder.DecodeWhole` takes the channel buffers as two separate arrays. A mono header leaves the second array alone, so channel aliasing is not modelled.
- `MoiRoundTrip.StereoBlockRoundTrip` requires n <= 0xFFFF. Samples per block is a 16-bit field, so no encoder block is larger.
- A repeated `fact` chunk is accepted, and the later one sets the sample count. The assertion that forbids it is compiled only in debug builds.
- The search beam width and search depth are stored but never used (see `ConvertIgnoresSearch`).
- The plain `assert` calls in the encoder (moi_encoder.c lines 75, 214, 294, 297, 344, 353, 454-461 and 555-556) are modelled as compiled out, as in a release build. A debug build aborts where one fails. Of these, line 344 fails for the stereo guard in Findings, and line 555 fails for the block sizes in Findings. `StreamBlocksWithinBlockSize` states when line 555 holds.

## Findings

| source | as written | input that shows it | evidently intended | confidence | as-written member | corrected member |
|---|---|---|---|---|---|---|
| libs/moicodec/src/moi_encoder.c:325 | the stereo packer refuses only when `data_size < num_samples + 4` | n = 10 with 14 bytes of space: the guard passes, but the block writes 8 + 8*2 = 24 bytes | refuse when `data_size < 8 + 8*ceil((n-1)/8)`, the bytes actually written. In a debug build the assertion at line 344 aborts the packer at the first word that starts past the space; the word before it may already have overrun | not executed | MoiEncoder.StereoGuardAsWrittenTooWeak | MoiEncoder.StereoGuardCorrected |
| libs/moicodec/src/moi_decoder.c:294 | the mono pair loop runs while `smpl < tmp_num_decode_samples - 2` in 32-bit unsigned arithmetic | a 4-byte block, or a 1-sample buffer: the count is 1, `1 - 2` wraps to 0xFFFFFFFF, and the loop decodes pairs past the count and the buffer | run while `smpl + 2 < count` | not executed | MoiDecoder.MonoPairGuardAsWrittenOverruns | MoiDecoder.MonoPairGuardCorrected |
| libs/moicodec/src/moi_encoder.c:555 | the whole-stream loop asserts `write_size <= header.block_size`, but conversion accepts any stereo block size above 8 | stereo with block size 17: spb = 10 and a full block takes 24 bytes. The assertion fails in a debug build. In a release build the blocks are longer than the header's block size | accept only block sizes whose full blocks fill the block: a multiple of 8 for stereo | not executed | MoiEncoder.StereoBlockOverflowsExample | MoiEncoder.StreamBlocksWithinBlockSize |
| libs/moicodec/src/moi_encoder.c:458 | samples per block is truncated to 16 bits | mono with block size 0x8004: spb = 1, so each block is 4 bytes while the header's block size is 0x8004 | accept only mono block sizes up to 0x8003, where a full block fills the block size | not executed | MoiEncoder.MonoSamplesPerBlockWraps | MoiEncoder.BlocksWithinBlockSize |
