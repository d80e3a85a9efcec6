# rkvc verification model

A Dafny model of the parts of rkvc whose correctness is hardest to see by reading: the rANS entropy
coder of the MLVC neural codec, the codec's two state machines and the `.mlvc` container between
them, the threaded pipeline executor and its queues, the MPEG program stream multiplexer and
demultiplexer, the model transformations (the q_index graph rewrite, the QPP1 binary delta,
depth to space) and the rate controller. `dafny verify dfyconfig.toml` checks everything.

Where the source updates an object or a buffer in place there is a class or a method over an array,
proved against a function on values; the theorems are about those functions. Each file is one module.

| part | files |
|---|---|
| words, statuses, byte strings in pieces | `Words`, `Status`, `Chunks` |
| rANS: one step, reciprocals, code, round trip, stream, limits | `RansStep`, `RansReciprocal`, `RansCoder`, `RansRoundTrip`, `RansStream`, `RansFormat`, `RansLimits` |
| rANS: tables, encoder and decoder objects | `RansTables`, `RansEncoder`, `RansDecoder` |
| scale maps and frame payloads | `Scales`, `ExtractScales`, `Payload`, `PayloadFormat` |
| container, codec state machines, lockstep, schedule, nodes | `Container`, `ContainerFormat`, `MlvcModel`, `Lockstep`, `Schedule`, `MlvcNodes` |
| queues and executor | `Channel`, `Queue`, `Executor`, `ExecutorTheorems`, `ExecutorFailures` |
| program stream | `PsBits`, `PsMux`, `PsDemux`, `PsRoundTrip`, `PsStream`, `PsFormat`, `Crc` |
| model transformations | `QpPatch`, `QpPatchFile`, `QpPatchFormat`, `QpDynamic`, `QpDynamicPass`, `QpDynamicRules`, `DepthToSpace` |
| rate controller | `RateControl`, `RateBehaviour` |

Round trips and refinements leave the choices both sides share open: which distribution codes a value,
when a key frame comes, where a field lies. The modules named `...Format`, `...Rules`, `...Behaviour`,
`...Failures` and `Schedule` fix these, in plain arithmetic on inputs, bytes and records.

The results to read first, by operation:

| operation | round trips, safety, refinement | what it does exactly |
|---|---|---|
| rANS encode and decode | `RansStream.BytesRoundTrip`, `RansReciprocal.PutSymExact`, `RansLimits.StepsInvertIff` | `RansFormat.SymbolWritten`, `EscapeWritten`, `CodeWritten`, `DecodesExactlyWhen` |
| pipeline executor | `ExecutorTheorems.NoStuckPipeline`, `EveryRunEnds`, `EofMeansComplete` | `ExecutorFailures.FailureReachesClient`, `DelayedFramesArrive` |
| program stream | `PsStreams.ProgramStreamRoundTrip`, `SmallChunksRoundTrip` | `PsStreams.FrameIsRight`, `PsFormat.UnitsOfAccess`, `PackFields`, `ForeignIgnored` |
| mlvc encoder and decoder nodes | `Lockstep.StaysInLockstep`, `RecoveryFindsMark` | `Schedules.KeyFrameWhen`, `MarkWhen`, `LosslessRunShowsInputs` |
| rate controller | `RateControl.RunsStayBounded`, `RetuneKeepsIff` | `RateBehaviour.AllocationIs`, `FullerGetsLess`, `LearnsCost` |
| frame payload, scale maps | `Payloads.PayloadRoundTrip` | `PayloadFormat.PayloadIsOneStream`, `ScaleMapAt` |
| graph rewrite | `QpDynamic.RewriteKeepsMeaning` | `QpDynamicRules.ConvertsExactly`, `NodesKept` |
| bounded queue | `Queues.RunsAreSafe` | `Queues.PopAnswers`, `EndHasCause` |
| QPP1 delta | `QpPatchFiles.DeltaRoundTrip` | `QpPatch.OneDiffOnly`, `QpPatchFormat.AcceptsExactly` |
| `.mlvc` container | `Containers.ChunkingIndependent`, `StreamRoundTrip` | `ContainerFormat.RecordVerdict`, `HeaderVerdict` |
| depth to space | `DepthToSpace.Nc1hwc2D2s`, `ReshapeTransposeReshape` | `DepthToSpace.FusedCellIs` |

Findings, each proved:

- Coder creation accepts up to 30 bits for byte units, but a coder inverts step by step exactly when
  both its scales are at most 23 bits (`StepsInvertIff`). Every byte coder with wider digits loses a
  value it should keep, so with narrow symbols it round-trips exactly when the digits are narrow
  (`WideDigitsLose`, `RoundTripsIff`); `WideCoderFails` has a coder with 24 symbol bits that loses its
  single value. 31 bits pass the range check and are then never accepted (`ThirtyOneBitsNeverAccepted`).
- A sequence of values decodes exactly when every escape code fits the decoder's cap on digits
  (`SequenceRoundTrip`, `BytesRoundTrip`); all do when the digit width divides 32.
- The encoder repeats the stream header when its 32-bit frame counter wraps, and the decoder refuses
  that record: a run plays exactly up to 2^32 frames (`StaysInLockstep`, `LongRunFails`).
- The encoder codes at any level, also one the tables have no row for; the decoder refuses the record
  (`RungFound`, `MissingRowFails`).
- The C++ patch reader counts at most 536870905 ranges and the Python one does not. They agree exactly
  below that, and C++ takes everything that can be written exactly for gaps of 7 or more (`ApplyBoth`,
  `CppTakesAllIff`; `SparseFileRefused` has the file that is refused).
- The graph rewrite preserves meaning exactly when no graph output is an index, a table or a look-up;
  the pass does not check this (`RewriteKeepsMeaning`, `LookUpAsOutputIsLost`).
- Asking the container demuxer for a record before its first byte is a format error for good; it is the
  only way in which the cutting of the input matters (`ChunkingIndependent`, `EmptyFirstChunk`).
- A retune keeps the rate controller's bounds exactly when what is held fits the new bucket, which it
  does for every rate that is not lower (`RetuneKeepsIff`, `HigherRateFits`, `LowerRateOverfills`).
- A demultiplexed access unit's codec and key frame flag are read with the map of the access unit after
  it (`ProgramStreamRoundTrip` states it exactly; `OneCodecRoundTrip` where it makes no difference).

One comment is not followed: the rate controller's header says that a dropped frame is reported to it
as an update (codecs/mlvc/include/mlvc/ratectl.hpp:33-35), and the encoder does not do so
(codecs/mlvc/src/encoder.cpp:288-315). The model follows the encoder.

## Model

| member | source | states |
|---|---|---|
| `RansStep.RefillUndoesRenorm` | codecs/mlvc/src/rans.cpp:214-231 | from any renormalised state the decoder's refill takes back exactly the state and bytes the encoder's renormalisation pushed out, for bytes and for 32-bit units |
| `RansStep.RenormLands` | codecs/mlvc/src/rans.cpp:214-231 | renormalisation ends in the interval from which a put lands back in the normal range, when 2^bits divides the lower bound |
| `RansStep.SlotSplits` | codecs/mlvc/src/rans.cpp:426-458 | the slot of a put state names the symbol and gives quotient and remainder back |
| `RansStep.AdvanceUndoesPut` | codecs/mlvc/src/rans.cpp:252-266 | after any put the state is normal again (byte states in [2^23, 2^31)), its slot lies in the symbol's, and advance returns state and bytes as they were |
| `RansReciprocal.ReciprocalDivides` | codecs/mlvc/src/rans.cpp:29-47 | multiplying by the rounded-up reciprocal and shifting is exact division for every state below the word size |
| `RansReciprocal.LongDivision` | codecs/mlvc/src/rans.cpp:49-66 | two-step long division yields the ceiling quotient |
| `RansReciprocal.InitSymByte` | codecs/mlvc/src/rans.cpp:29-47 | the symbol built is right for every frequency including 1, and the reciprocal fits 32 bits |
| `RansReciprocal.InitSym64` | codecs/mlvc/src/rans.cpp:49-74 | the same for the 64-bit form, whose reciprocal fits two words |
| `RansReciprocal.PutWordExact` | codecs/mlvc/src/rans.cpp:233-250 | the machine word put stays in range and equals the put by division exactly when the frequency is above 1 or the state is not zero |
| `RansReciprocal.PutSymExact` | codecs/mlvc/src/rans.cpp:233-250 | with renormalisation: the multiply-and-shift put equals the put by true division, on every state in range, exactly when a renormalised state under frequency 1 is not zero |
| `RansReciprocal.PutSymIsDivision` | codecs/mlvc/src/rans.cpp:233-250 | it always is when 2^bits divides the lower bound and the state is normal |
| `RansTables.BuildDists` | codecs/mlvc/src/rans.cpp:102-125 | accepts exactly lengths of two or more that cover the table; offsets and sentinels of each distribution |
| `RansTables.BuildSyms` | codecs/mlvc/src/rans.cpp:118-159 | accepts exactly positive frequencies whose running sums stay within 2^bits, and builds the right symbol for each |
| `RansTables.BuildCdf` | codecs/mlvc/src/rans.cpp:118-159 | the cumulative segment of every distribution |
| `RansTables.Create` | codecs/mlvc/src/rans.cpp:78-161 | Invalid and Format for exactly the arguments and tables the source refuses; an accepted coder is valid and represents its tables, whose frequencies need not sum to 2^bits |
| `RansTables.ThirtyOneBitsNeverAccepted` | codecs/mlvc/src/rans.cpp:93-96 | 31 symbol bits pass the range check but no table |
| `RansFormat.FrequenciesAcceptedWhen` | codecs/mlvc/src/rans.cpp:118-159 | up to 30 bits the frequency test passes exactly when all frequencies are positive and those of each distribution sum to at most 2^bits; with 31 for no table |
| `RansRoundTrip.CountRoundTrip` | codecs/mlvc/src/rans.cpp:276-288 | the digit count comes back exactly when it is within the decoder's cap |
| `RansRoundTrip.BypassRoundTrip` | codecs/mlvc/src/rans.cpp:268-289 | an escape code comes back exactly when its digits are within 32/bypass_bits, and is refused otherwise |
| `RansRoundTrip.SequenceRoundTrip` | codecs/mlvc/src/rans.cpp:291-325 | from any normal stream, decoding what was encoded returns every value (0 under negative indices, indices beyond the last clamped alike) and exactly the stream before it, if and only if every escape code fits |
| `RansRoundTrip.DividingBitsFitAll` | codecs/mlvc/src/rans.cpp:466-488 | with bypass_bits dividing 32 every code of int32 values above -2^31 fits |
| `RansStream.OpenUndoesFlush` | codecs/mlvc/src/rans.cpp:327-378 | opening a flushed stream restores the state and the bytes |
| `RansStream.BytesRoundTrip` | codecs/mlvc/src/rans.cpp:548-583 | encode, flush, open, decode returns every value, uses up every byte and ends at the lower bound, if and only if every escape code fits |
| `RansStream.BytesBound` | codecs/mlvc/src/rans.cpp:291-354 | at 16 symbol and 2 bypass bits a flushed stream of n values takes 4 to 4 + 24 n bytes |
| `RansFormat.PutBelowTop` | codecs/mlvc/src/rans.cpp:252-266 | below freq * 2^(31 or 63 - bits) a put writes nothing and turns the state into quotient * 2^bits + start + remainder |
| `RansFormat.PutWritesByte` | codecs/mlvc/src/rans.cpp:214-221 | from there on in byte units the low byte goes out first and the put starts again with the rest |
| `RansFormat.PutWritesUnit` | codecs/mlvc/src/rans.cpp:223-231 | in 32-bit units four bytes go out, the lowest in front |
| `RansFormat.SymbolWritten` | codecs/mlvc/src/rans.cpp:301-320 | a value whose shifted form has a symbol goes into that symbol's slot of the distribution its index selects, the last one for indices beyond it |
| `RansFormat.TableSymbolWritten` | codecs/mlvc/src/rans.cpp:102-159 | the same in terms of the tables: the slot starts at the sum of the frequencies before the symbol and is as wide as its own |
| `RansFormat.EscapeWritten` | codecs/mlvc/src/rans.cpp:306-315 | any other value goes in as the sentinel of the selected distribution with its escape code behind it: -2i - 1 below zero, 2(i - sentinel) from the sentinel on |
| `RansFormat.CodeWritten` | codecs/mlvc/src/rans.cpp:268-289 | an escape code of n digits is the number n in runs of the largest digit, then the digits from the lowest, for all n |
| `RansFormat.CountSymbolsAre` | codecs/mlvc/src/rans.cpp:276-288 | the number n takes n / max symbols max and one symbol n % max |
| `RansFormat.CodeDigitsAre` | codecs/mlvc/src/rans.cpp:269-277 | the j-th digit is code / 2^(b j) % 2^b |
| `RansFormat.FirstInFront` | codecs/mlvc/src/rans.cpp:299-325 | the first value of a sequence is the one in front: the low bits of the state lie in the slot of its symbol |
| `RansFormat.SymbolRead` | codecs/mlvc/src/rans.cpp:490-538 | from any state the slot in its low bits decides the value and the state moves on by it |
| `RansFormat.NoSymbol` | codecs/mlvc/src/rans.cpp:517-521 | a slot beyond the last symbol is refused |
| `RansFormat.DecodesExactlyWhen` | codecs/mlvc/src/rans.cpp:466-538 | a stream decodes, to these values, if and only if every value has a symbol or a code below 2^(b (32 / b)), in terms of indices, offsets and sentinels alone |
| `RansFormat.FlushWritten` | codecs/mlvc/src/rans.cpp:327-354 | the flushed stream is the state in four or eight bytes, the lowest first, and what was written before |
| `RansFormat.OpensExactly` | codecs/mlvc/src/rans.cpp:364-424 | exactly the byte strings of whole units with a state of at least 2^23 or 2^31 open |
| `RansFormat.TwoDistsBytes` | codecs/mlvc/src/rans.cpp:291-354 | an example: under two distributions value 1 with index 1 is the four bytes 01 01 80 00 |
| `RansLimits.StepsInvertIff` | codecs/mlvc/src/rans.cpp:93-96 | every put is inverted by its advance, from every normal state whether reached or not, exactly for 32-bit units or at most 23 bits in both scales |
| `RansLimits.WideDigitsLose` | codecs/mlvc/src/rans.cpp:268-289 | with byte units and digits of more than 23 bits every coder loses the value just beyond its symbols |
| `RansLimits.RoundTripsIff` | codecs/mlvc/src/rans.cpp:93-96 | with symbols of at most 23 bits a byte coder returns every sequence whose codes fit exactly when its digits have at most 23 bits too |
| `RansLimits.WideCoderFails` | codecs/mlvc/src/rans.cpp:93-96 | a valid 24-bit byte coder whose encoding of one value does not decode |
| `RansEncoding.RansEncoder.constructor` | codecs/mlvc/src/rans.cpp:163-172 | a fresh encoder is at the initial state with nothing written |
| `RansEncoding.RansEncoder.Grow` | codecs/mlvc/src/rans.cpp:174-191 | growing keeps state and written bytes and makes room for a unit; on failure only oom is set |
| `RansEncoding.RansEncoder.WriteByte` | codecs/mlvc/src/rans.cpp:193-201 | one byte in front of what was written |
| `RansEncoding.RansEncoder.WriteUnit32` | codecs/mlvc/src/rans.cpp:203-212 | four bytes, little endian, in front of what was written |
| `RansEncoding.RansEncoder.RenormByteLoop` | codecs/mlvc/src/rans.cpp:214-221 | the loop is renormalisation in bytes and leaves the state below x_max |
| `RansEncoding.RansEncoder.Renorm64Loop` | codecs/mlvc/src/rans.cpp:223-231 | the same in 32-bit units |
| `RansEncoding.RansEncoder.PutSymbolStep` | codecs/mlvc/src/rans.cpp:233-250 | the object does the multiply-and-shift put |
| `RansEncoding.RansEncoder.PutRawStep` | codecs/mlvc/src/rans.cpp:252-266 | the object does the put by division |
| `RansEncoding.RansEncoder.Bypass` | codecs/mlvc/src/rans.cpp:268-289 | the loops over digits and count write the escape code |
| `RansEncoding.RansEncoder.Encode` | codecs/mlvc/src/rans.cpp:291-325 | last value first; Invalid for exactly the refused calls and then nothing changes; otherwise the stream of all values or oom |
| `RansEncoding.RansEncoder.Flush` | codecs/mlvc/src/rans.cpp:327-354 | the state in front of the bytes, once |
| `RansEncoding.RansEncoder.Reset` | codecs/mlvc/src/rans.cpp:356-360 | back to the initial state |
| `RansDecoding.RansDecoder.Open` | codecs/mlvc/src/rans.cpp:364-378 | opens exactly the streams that hold a normal state |
| `RansDecoding.RansDecoder.InitByte` | codecs/mlvc/src/rans.cpp:395-410 | the state of four bytes, refused below the lower bound or above the range |
| `RansDecoding.RansDecoder.Init64` | codecs/mlvc/src/rans.cpp:412-424 | the state of two units |
| `RansDecoding.RansDecoder.AdvanceStep` | codecs/mlvc/src/rans.cpp:430-458 | advance and refill, failing exactly when the bytes run out |
| `RansDecoding.RansDecoder.Bypass` | codecs/mlvc/src/rans.cpp:460-488 | reads an escape code or fails where the specification has none |
| `RansDecoding.RansDecoder.Decode` | codecs/mlvc/src/rans.cpp:490-538 | writes every value in place; Invalid and Format exactly where the source says so |
| `RansDecoding.RansDecoder.CheckEof` | codecs/mlvc/src/rans.cpp:540-546 | every byte used and the state at its lower bound |
| `RansDecoding.BinarySearch` | codecs/mlvc/src/rans.cpp:497-520 | the search in the cumulative table finds the symbol a scan from the left finds |
| `RansDecoding.RansEncode` | codecs/mlvc/src/rans.cpp:548-570 | one encoder, one encode, one flush |
| `RansDecoding.RansDecode` | codecs/mlvc/src/rans.cpp:572-583 | anything but a clean end of stream is an error |
| `RansDecoding.EncodeThenDecode` | codecs/mlvc/src/rans.cpp:548-583 | the two composed: success exactly when every code fits, and then the values are back in the array |
| `ScaleMaps.ScaleCellInRange` | codecs/mlvc/src/pixel.cpp:71-151 | every access to z is in range for all geometries that pass the guards |
| `PayloadFormat.AcceptedWhen` | codecs/mlvc/src/pixel.cpp:74-82 | a geometry with an extent is accepted exactly when the last channel, 2 YC - 1, still has a plane in z |
| `PayloadFormat.ScaleMapAt` | codecs/mlvc/src/pixel.cpp:84-147 | every cell of both maps in plain arithmetic: its own channel or the one YC further on by the parity of row and column, the magnitude of the clamped cell of z cut to the largest index |
| `ScaleExtraction.FillSpan` | codecs/mlvc/src/pixel.cpp:95-147 | four columns at a time or one by one, a span gets the checkerboard and nothing else changes |
| `ScaleExtraction.FillTile` | codecs/mlvc/src/pixel.cpp:95-147 | a tile, clamped at the edges, gets the pointwise formula in both maps |
| `ScaleExtraction.ExtractScales` | codecs/mlvc/src/pixel.cpp:71-151 | both forms of the loops write every cell of both maps with the pointwise checkerboard, indices in 0..scale_max_index; Invalid exactly for bad geometries, and then nothing is written |
| `Payloads.BuildZIdx` | codecs/mlvc/src/codec.cpp:233-241 | the index of every cell of z |
| `PayloadFormat.ZIndexAt` | codecs/mlvc/src/codec.cpp:233-241 | cell (c, y, x) is coded under distribution qp * ZC + c |
| `Payloads.PayloadRoundTrip` | codecs/mlvc/src/encoder.cpp:385-402 | a payload decodes to z, y0 and y1 exactly and ends at end of stream, for all tensors, with two coders on one stream and the scales recomputed from the decoded z; at most 4 + 24 n bytes |
| `PayloadFormat.PayloadIsOneStream` | codecs/mlvc/src/encoder.cpp:385-402 | where both coders are one, a payload is the plain stream of z, y0, y1 under z's indices, the first map and the second |
| `PayloadFormat.ZComesFirst` | codecs/mlvc/src/decoder.cpp:330-346 | whatever the coders, z comes out first and on its own |
| `Payloads.EncodeFrame` | codecs/mlvc/src/encoder.cpp:385-402 | the encoder's section pushes y1, y0 and z |
| `Payloads.DecodeMaps` | codecs/mlvc/src/decoder.cpp:336-346 | scales from z, then y0, y1 and end of stream |
| `Payloads.DecodeFrame` | codecs/mlvc/src/decoder.cpp:330-346 | the decoder's section: exactly the payload's latents or Format |
| `Containers.HeaderRoundTrip` | codecs/mlvc/src/container.cpp:25-63 | a written header parses back, its frame rate made valid, unless it has no extent |
| `Containers.RecordRoundTrip` | codecs/mlvc/src/container.cpp:65-125 | a written record parses back and leaves what follows it |
| `ContainerFormat.HeaderVerdict` | codecs/mlvc/src/container.cpp:42-63 | any 64 bytes: parsed field by field exactly with this magic and an extent, otherwise a format error |
| `ContainerFormat.RecordVerdict` | codecs/mlvc/src/container.cpp:102-125 | any 16 bytes and what follows: a drop without payload, a format error for a drop with one and for sizes of 0 or beyond 64 MiB, more bytes wanted, or the record |
| `ContainerFormat.HeaderExample` | codecs/mlvc/src/container.cpp:25-40 | a header in full |
| `ContainerFormat.RecordExample` | codecs/mlvc/src/container.cpp:65-71 | a record and a dropped one in full |
| `ContainerFormat.ErrorIsFinal` | codecs/mlvc/src/container.cpp:73-90 | after a format error nothing is taken in and nothing but the error comes out |
| `Containers.TakeAppend` | codecs/mlvc/src/container.cpp:86-125 | what next() decides it decides the same when more bytes are already there |
| `Containers.ChunkingIndependent` | codecs/mlvc/src/container.cpp:73-132 | any two splits of any byte string, empty chunks included, give the same records and the same outcome, and an error is final; a split whose first chunk is empty yields nothing and fails for good |
| `Containers.EmptyFirstChunk` | codecs/mlvc/src/container.cpp:73-95 | no record and a failed state, whatever follows an empty first chunk |
| `Containers.StreamRoundTrip` | codecs/mlvc/src/container.cpp:25-132 | a printed header and any well-formed records parse back, however they are cut, exactly when the first chunk is not empty |
| `Containers.NextBeforeFirstByte` | codecs/mlvc/src/container.cpp:86-95 | asking before the first byte is a format error, for good |
| `Containers.Demuxer.Append` | codecs/mlvc/src/container.cpp:73-84 | appends, or Format after an error |
| `Containers.Demuxer.Next` | codecs/mlvc/src/container.cpp:86-125 | the next record, left in the buffer, or the status; asking again gives the same |
| `Containers.Demuxer.ConsumeRecord` | codecs/mlvc/src/container.cpp:127-132 | removes exactly the record last seen |
| `MlvcModel.RungListShape` | codecs/mlvc/src/codec.cpp:73-103 | rungs ascend, number at most eight, come from the patches in range, and none is missed while there is room |
| `MlvcModel.RungsInRange` | codecs/mlvc/src/codec.cpp:73-103 | an accepted list holds the session's qp |
| `Schedules.RungsAccepted` | codecs/mlvc/src/codec.cpp:73-103 | set-up takes the session's level as the only rung where no patch is valid, and otherwise wants it among the rungs |
| `Schedules.RungsAre` | codecs/mlvc/src/codec.cpp:73-103 | the first eight different levels from 0 to 63 among the patches, in ascending order |
| `MlvcModel.FindRungAt` | codecs/mlvc/src/decoder.cpp:306-316 | in an ascending list a rung is found where it is |
| `Lockstep.DecoderIgnoresChunking` | codecs/mlvc/src/decoder.cpp:439-511 | any two splits of any byte string give the same pictures and the same outcome |
| `Lockstep.PayloadDecodes` | codecs/mlvc/src/decoder.cpp:330-346 | a record's payload decodes to the latents the encoder coded |
| `Lockstep.RungFound` | codecs/mlvc/src/decoder.cpp:295-316 | the decoder finds the encoder's rung, except exactly when the qp has no table row |
| `Lockstep.StepInStep` | codecs/mlvc/src/decoder.cpp:295-414 | one record keeps previous reference, long-term reference, flag and rung in step and yields one picture |
| `Lockstep.StaysInLockstep` | codecs/mlvc/src/encoder.cpp:270-452 | over every run of key frames, marks, recoveries, rung changes and drops, and every cut of the bytes: Ok exactly when every record fits and the run has at most 2^32 frames, then one picture per input, the predicted ones, and equal references; otherwise Format after a proper part |
| `Lockstep.LongRunFails` | codecs/mlvc/src/encoder.cpp:403-452 | every run of more than 2^32 frames fails |
| `Lockstep.MissingRowFails` | codecs/mlvc/src/decoder.cpp:295-305 | a stream whose first frame is coded at a level without a table row is refused at once |
| `Lockstep.SmallModelsFit` | codecs/mlvc/src/container.cpp:86-125 | small enough payloads and a row for every qp make every record fit |
| `Lockstep.FlagsMoveLtr` | codecs/mlvc/src/encoder.cpp:270-383 | what a record's flags say of the long-term reference after it |
| `Schedules.KeyFrameWhen` | codecs/mlvc/src/encoder.cpp:270-272 | over every run up to the counter's wrap: the first record is a key frame, a later one exactly when it is forced or the records since the last one, drops counted, are a multiple of the period in force |
| `Schedules.KeyFramesPeriodic` | codecs/mlvc/src/encoder.cpp:270-272 | with a constant period P and nothing forced, record k has the key frame bit exactly when k % P == 0 |
| `Schedules.KeyFrameInEveryPeriod` | codecs/mlvc/src/encoder.cpp:270-272 | with a constant period P, whatever is forced, no P records in a row are without a key frame |
| `Schedules.MarkWhen` | codecs/mlvc/src/encoder.cpp:273-281 | a record is marked exactly when it is no key frame and, counted from the last one, is number ltr_start, or beyond it a multiple of ltr_period |
| `Schedules.RecoveryWhen` | codecs/mlvc/src/encoder.cpp:273-281 | a record recovers exactly when it is marked and another mark stands since the last key frame |
| `Schedules.DropWhen` | codecs/mlvc/src/encoder.cpp:290-312 | a record is an empty one exactly when the controller says so and it is neither key frame nor marked |
| `Schedules.LevelOf` | codecs/mlvc/src/encoder.cpp:286-321 | a coded record has the level asked for, or that of the nearest rung of a static model, the lower of two |
| `Schedules.CodedAgainst` | codecs/mlvc/src/encoder.cpp:379-383 | a key frame is coded against nothing, a plain record against the last record that was coded |
| `Schedules.LosslessRunShowsInputs` | codecs/mlvc/src/decoder.cpp:478-504 | with a lossless network a run shows every coded picture as it was put in and the one before it again for each drop |
| `Schedules.RecordShows` | codecs/mlvc/src/decoder.cpp:295-414 | what the decoder makes of any readable record: references forgotten, used and kept by its three flags |
| `Schedules.DropRepeats` | codecs/mlvc/src/decoder.cpp:478-504 | a dropped record shows the last picture again or nothing, and moves nothing |
| `Schedules.EmptyChunkRefused` | codecs/mlvc/src/decoder.cpp:440-476 | a call with nothing, or after a format error, is one and changes nothing |
| `Schedules.SetUpWhen` | codecs/mlvc/src/decoder.cpp:138-283 | the decoder's set-up on any header: what is refused, and that otherwise nothing is held |
| `Schedules.RungOfRecord` | codecs/mlvc/src/decoder.cpp:295-328 | the rung of any level: the one with that level, the only one, or with tables any that has a row |
| `Schedules.OpeningHeader` | codecs/mlvc/src/encoder.cpp:412-428 | the header the stream opens with, field by field as a reader sees it |
| `Lockstep.RecoveryFindsMark` | codecs/mlvc/src/encoder.cpp:270-383 | after any run a recovery record is coded against the feature of the last record marked since the last key frame, and there is one |
| `MlvcNodes.CollectRungs` | codecs/mlvc/src/codec.cpp:73-103 | sorted insertion gives the rung list |
| `MlvcNodes.NearestRung` | codecs/mlvc/src/codec.cpp:220-231 | the first of the rungs nearest to q |
| `MlvcNodes.MlvcEncoder.Process` | codecs/mlvc/src/encoder.cpp:237-452 | fields and bytes after one input; nothing is counted on failure |
| `MlvcNodes.MlvcEncoder.ChooseRung` | codecs/mlvc/src/encoder.cpp:317-321 | the active rung and the qp used |
| `MlvcNodes.MlvcEncoder.RunModel` | codecs/mlvc/src/encoder.cpp:317-383 | references, flag and latents after the model has run |
| `MlvcNodes.MlvcDecoder.LazyInit` | codecs/mlvc/src/decoder.cpp:138-283 | rungs and references from the header |
| `MlvcNodes.MlvcDecoder.PickRung` | codecs/mlvc/src/decoder.cpp:295-316 | the rung for a record's qp, or Format |
| `MlvcNodes.MlvcDecoder.DecodeRecord` | codecs/mlvc/src/decoder.cpp:285-435 | one record: state and picture |
| `MlvcNodes.MlvcDecoder.Process` | codecs/mlvc/src/decoder.cpp:439-511 | one chunk: state, pictures and status |
| `Queues.BoundedQueue.Push` | core/include/rkvc/queue.hpp:21-29 | one pass of push: waits exactly when full and not ended |
| `Queues.BoundedQueue.TryPush` | core/include/rkvc/queue.hpp:31-40 | never waits |
| `Queues.BoundedQueue.Pop` | core/include/rkvc/queue.hpp:42-52 | items before the end status; waits exactly when empty and not ended |
| `Queues.BoundedQueue.TryPop` | core/include/rkvc/queue.hpp:54-65 | never waits |
| `Queues.BoundedQueue.Close` | core/include/rkvc/queue.hpp:67-75 | the first end wins, everybody is woken |
| `Queues.BoundedQueue.Cancel` | core/include/rkvc/queue.hpp:77-87 | the same with a status |
| `Queues.NextKeepsInv` | core/include/rkvc/queue.hpp:21-87 | every step of any thread, spurious wakeups included, keeps: while consumers sleep there are at most as many items as notified consumers on the way, and likewise for producers and free slots |
| `Queues.RunsAreSafe` | core/include/rkvc/queue.hpp:21-87 | over every run: that, size within capacity, order kept, the first end status never overwritten |
| `Queues.SleepersAreServed` | core/include/rkvc/queue.hpp:21-87 | a sleeper that could go on has somebody notified on the way |
| `Queues.PushAnswers` | core/include/rkvc/queue.hpp:21-29 | push sleeps exactly while the queue is full and open, answers with the end status once it has one, and otherwise puts the item last |
| `Queues.PopAnswers` | core/include/rkvc/queue.hpp:42-52 | pop hands out the item next in the order of pushing, also after the end; with none left the end status, or it sleeps |
| `Queues.TryAnswers` | core/include/rkvc/queue.hpp:31-65 | the forms that do not wait answer the same, and Again where the others would sleep |
| `Queues.EndAnswers` | core/include/rkvc/queue.hpp:67-87 | close ends in Eof, cancel in its status unless that is no error, the first of them decides, and every sleeper is woken |
| `Queues.EndHasCause` | core/include/rkvc/queue.hpp:67-87 | over every run: a queue has ended only by a close or a cancel, and in the status of the first |
| `Executors.StepKeepsInv` | core/src/executor.cpp:62-152 | every worker step, fail() in its separate pieces, keeps the pipeline invariant |
| `Executors.ClientKeepsInv` | core/src/executor.cpp:28-55 | so do the client's pushes, pulls, close and cancel |
| `Executors.ReachableInv` | core/src/executor.cpp:12-152 | the invariant holds in every reachable state |
| `ExecutorTheorems.NoStuckPipeline` | core/src/executor.cpp:62-152 | with the input ended and the output ended or with room, every worker is done or some worker can step, in every reachable state |
| `ExecutorTheorems.StepDecreases` | core/src/executor.cpp:84-152 | every worker step lowers a lexicographic measure |
| `ExecutorTheorems.EveryRunEnds` | core/src/executor.cpp:84-152 | once the client pushes no more, only finitely many steps of an infinite run are the workers', however its closing, canceling and pulling falls between them |
| `ExecutorTheorems.DrainedMeansEnded` | core/src/executor.cpp:131-151 | when the active count is zero the output queue has ended and everybody is done |
| `ExecutorTheorems.DeliveryIsPrefix` | core/src/graph.cpp:15-100 | frames delivered and buffered are a prefix of the in-order image of the accepted frames, in every reachable state |
| `ExecutorTheorems.EofMeansComplete` | core/src/executor.cpp:84-152 | the output is at Eof only if every worker left cleanly, the error is Ok and the whole image is delivered or buffered |
| `ExecutorTheorems.EofIsForever` | core/src/executor.cpp:62-152 | from then on the error stays Ok and the image is final |
| `ExecutorTheorems.OneToOneImage` | core/src/graph.cpp:15-100 | for one-in-one-out nodes the image has as many frames as were accepted |
| `ExecutorFailures.StatusesComeFromOutside` | core/src/executor.cpp:62-152 | over every run: the error and every end status is Ok or Eof or one a node failed or the client canceled with |
| `ExecutorFailures.FailureReachesClient` | core/src/executor.cpp:62-152 | if the client cancels nothing and all failures carry one status: the error is that status from the first broken worker on, and a run that is over has its output ended in Eof if there was no error and in that status otherwise |
| `ExecutorFailures.NothingFailsByItself` | core/src/executor.cpp:84-152 | without a failure or cancel the error stays Ok, and a run that is over has delivered the whole image |
| `ExecutorFailures.OnlySinkEndsOutput` | core/src/executor.cpp:72-81 | no failure ends the output before the sink leaves, so that finished frames are not lost |
| `ExecutorFailures.FirstErrorWins` | core/src/executor.cpp:62-72 | once set the error never changes |
| `ExecutorFailures.MappedFramesArrive` | core/src/graph.cpp:15-100 | for nodes that map each frame: at Eof frame j of the output is frame j of the input gone through every node in turn |
| `ExecutorFailures.DelayedFramesArrive` | core/src/executor.cpp:84-152 | for nodes that hold each frame until the next and let the last go at the flush: at Eof every accepted frame has come out |
| `PsBits.BitWriter.PutBit` | codecs/pspack/src/ps.cpp:11-26 | one bit at the end of the number written |
| `PsBits.BitWriter.Put` | codecs/pspack/src/ps.cpp:11-26 | the low n bits, highest first |
| `PsBits.PtsRoundTrip` | codecs/pspack/src/ps.cpp:47-66 | reading a printed time stamp gives it back, for all 33-bit values |
| `PsBits.WritePts` | codecs/pspack/src/ps.cpp:47-58 | prints 0 if negative, otherwise the value modulo 2^33 |
| `PsMux.WritePack` | codecs/pspack/src/ps.cpp:172-190 | the bit writer's calls print the pack header |
| `PsMux.WriteSystem` | codecs/pspack/src/ps.cpp:192-211 | the system header |
| `PsMux.WriteMap` | codecs/pspack/src/ps.cpp:212-225 | the program stream map with its check sum |
| `PsMux.WritePes` | codecs/pspack/src/ps.cpp:227-240 | a video packet; only the first of an access unit is aligned and stamped |
| `PsMux.MuxFrame` | codecs/pspack/src/ps.cpp:150-245 | the units of an access unit in pieces, or the status |
| `PsDemux.Demux.Append` | codecs/pspack/src/ps.cpp:247-256 | appends within the limit or changes nothing |
| `PsDemux.Demux.Next` | codecs/pspack/src/ps.cpp:258-408 | state and result after one call of the parse loop |
| `PsDemux.Demux.EmitAu` | codecs/pspack/src/ps.cpp:410-422 | hands the assembled access unit over |
| `PsDemux.Demux.Flush` | codecs/pspack/src/ps.cpp:424-426 | the same at the end |
| `PsDemux.AnyNal` | codecs/pspack/src/ps.cpp:86-103 | finds a header byte exactly if the walk over start codes meets one |
| `PsDemux.FindKey` | codecs/pspack/src/ps.cpp:132-148 | a key frame exactly if such a byte is met |
| `PsDemux.SniffCodec` | codecs/pspack/src/ps.cpp:105-120 | HEVC before AVC |
| `PsRoundTrip.PackQuiet` | codecs/pspack/src/ps.cpp:172-190 | the marker bits keep start codes out of a pack header, also when its first byte is lost (sections 2.5.3.3 and 2.4.3.6 of ISO/IEC 13818-1) |
| `PsRoundTrip.MapCrc` | codecs/pspack/src/ps.cpp:212-225 | the check sums of the two maps |
| `PsRoundTrip.FindsUnit` | codecs/pspack/src/ps.cpp:122-128 | behind quiet bytes the search finds the next unit, once three of its bytes are there |
| `PsRoundTrip.PackLost` | codecs/pspack/src/ps.cpp:258-408 | a fake start code in the rescanned last bytes costs the pack header behind it and nothing else |
| `PsRoundTrip.ScanGood` | codecs/pspack/src/ps.cpp:258-408 | whatever part of the stream has arrived, one scan hands over the next due frame or waits where it can go on |
| `PsStreams.ProgramStreamRoundTrip` | codecs/pspack/src/ps.cpp:150-426 | the outputs for any nonempty access units up to 64 MiB, in any chunks append accepts, give the same byte strings in order, each with its time stamp, and says with which map each is read |
| `PsStreams.SmallChunksRoundTrip` | codecs/pspack/src/ps.cpp:150-426 | the same with nothing assumed of append, for chunks of at most 32 MiB: all are accepted, since a drained buffer waits for at most one unit |
| `PsStreams.OneCodecRoundTrip` | codecs/pspack/src/ps.cpp:150-426 | in a stream of one codec that opens with a key frame codec and key frame flag are right too |
| `PsStreams.FrameIsRight` | codecs/pspack/src/ps.cpp:258-422 | what the frame of an access unit must be, without the model's names: its bytes, its time stamp modulo 2^33 or 0, the codec of the last key frame up to the next unit or a guess, key frame exactly if a parameter set or random access slice is in it |
| `PsStreams.WalkFindsAll` | codecs/pspack/src/ps.cpp:86-103 | the walk that steps over three or four bytes finds exactly the bytes behind 00 00 01 |
| `PsFormat.MuxRefuses` | codecs/pspack/src/ps.cpp:150-160 | nothing is invalid, more than 64 MiB a format error, all else printed |
| `PsFormat.UnitsOfAccess` | codecs/pspack/src/ps.cpp:161-245 | the units of an access unit: pack, tables of a key frame, stamped packet, then pack and packet of 60000 bytes in turn, every pack with clock and rate |
| `PsFormat.MuxedSize` | codecs/pspack/src/ps.cpp:150-245 | the length of the output in closed form |
| `PsFormat.PackFields` | codecs/pspack/src/ps.cpp:172-190 | clock, rate and marker bits where sections 2.5.3.3 and 2.5.3.4 of ISO/IEC 13818-1 put them |
| `PsFormat.HeadFields` | codecs/pspack/src/ps.cpp:227-240 | length, flags and time stamp of the first packet |
| `PsFormat.MoreFields` | codecs/pspack/src/ps.cpp:227-240 | and of the others |
| `PsFormat.SystemFields` | codecs/pspack/src/ps.cpp:192-211 | the fields of the system header |
| `PsFormat.MapFields` | codecs/pspack/src/ps.cpp:212-225 | and of the map |
| `PsFormat.AppendLimit` | codecs/pspack/src/ps.cpp:247-256 | the buffer takes 65 MiB and no more |
| `PsFormat.ForeignIgnored` | codecs/pspack/src/ps.cpp:258-408 | any pack, system header, packet of another stream, empty video packet or unknown code in front changes neither the result nor the assembly |
| `PsFormat.UnboundedIgnored` | codecs/pspack/src/ps.cpp:363-374 | so is a packet of another stream without length, up to the next start code |
| `PsFormat.PacketTaken` | codecs/pspack/src/ps.cpp:340-408 | any video packet, whatever its id, flags and header: an aligned one starts an access unit with its data and time stamp and hands over the one before, another adds to it, is dropped without one, and is a format error beyond 64 MiB |
| `PsFormat.PlaceKept` | codecs/pspack/src/ps.cpp:387-406 | where the parser stands at an error: behind the packets it has taken and in front of one it has not |
| `PsFormat.IncompleteWaits` | codecs/pspack/src/ps.cpp:258-408 | of a unit that is not there in full nothing is taken |
| `PsFormat.FlushAnswers` | codecs/pspack/src/ps.cpp:410-426 | the flush hands over what is being put together, its codec from the map or a guess, or Eof |
| `PsFormat.GarbageIgnored` | codecs/pspack/src/ps.cpp:122-128 | nor does a byte that begins no start code |
| `PsFormat.BadVideoRefused` | codecs/pspack/src/ps.cpp:363-376 | a video packet without length or shorter than its own header is a format error |
| `PsFormat.TooLargeRefused` | codecs/pspack/src/ps.cpp:402-403 | so is a continuation beyond 64 MiB |
| `PsFormat.MapReads` | codecs/pspack/src/ps.cpp:296-328 | of any program map the last video entry of a known type decides, and without one nothing changes |
| `PsFormat.BrokenMapIgnored` | codecs/pspack/src/ps.cpp:296-327 | a map too short, or whose descriptors or entries run into its check sum, changes nothing |
| `Crc.StepXor` | codecs/mlvc/src/qppatch.cpp:21-30 | the shift step is linear over xor (section 3.2.9 of IEEE 802.3) |
| `Crc.ByteAtATime` | codecs/mlvc/src/qppatch.cpp:21-42 | eight steps are one look at the low byte and a shift |
| `Crc.BuildTable` | codecs/mlvc/src/qppatch.cpp:21-30 | entry i is eight steps of i |
| `Crc.Crc32ByTable` | codecs/mlvc/src/qppatch.cpp:37-42 | the table-driven form computes the CRC-32 of every byte string |
| `Crc.Crc32ByBits` | codecs/pspack/src/ps.cpp:72-80 | so does the bit-at-a-time form |
| `QpPatch.RawRuns` | tools/mlvc/qppatch.py:33-49 | the maximal runs of differing bytes |
| `QpPatch.Merge` | tools/mlvc/qppatch.py:50-60 | runs no more than gap apart become one, nothing covered is lost |
| `QpPatch.DiffRanges` | tools/mlvc/qppatch.py:33-60 | sorted, disjoint ranges more than gap apart (more than zero for a negative gap) that start and end with a difference and cover every one |
| `QpPatch.OneDiffOnly` | tools/mlvc/qppatch.py:33-60 | those ranges are the only ones: covering every difference, beginning and ending with one, more than gap apart, and with no more than gap equal bytes in a row inside |
| `QpPatch.PastedTarget` | tools/mlvc/qppatch.py:122-131 | pasting the target's bytes over ranges that cover every difference gives the target |
| `QpPatchFiles.Encode` | tools/mlvc/qppatch.py:63-85 | the file of those ranges; fails exactly when a field does not fit |
| `QpPatchFiles.FileApplies` | tools/mlvc/qppatch.py:63-139 | a written file is accepted and applied to the base gives the target |
| `QpPatchFormat.FileFields` | tools/mlvc/qppatch.py:63-85 | every header field of a written file |
| `QpPatchFormat.FileRanges` | tools/mlvc/qppatch.py:63-85 | its ranges behind the header, and behind them the target's bytes in each |
| `QpPatchFiles.ApplyPy` | tools/mlvc/qppatch.py:109-139 | accepts exactly the well-formed files for this base |
| `QpPatchFiles.ApplyBoth` | codecs/mlvc/src/qppatch.cpp:44-102 | both programs on one base and patch: C++ succeeds exactly when Python does and the ranges can be counted, and leaves the same bytes, or else the base as it was |
| `QpPatchFormat.AcceptsExactly` | codecs/mlvc/src/qppatch.cpp:54-94 | on any bytes: Python accepts exactly magic, version, no flags, size and sum of this base, the level asked for, ranges inside it that account for the rest, and its sum; C++ the same with its limit |
| `QpPatchFormat.TruncatedRefused` | tools/mlvc/qppatch.py:88-123 | bytes too short for their own ranges are refused by both |
| `QpPatchFormat.PastedByte` | tools/mlvc/qppatch.py:124-134 | what any accepted file does to a byte: the last range over it decides |
| `QpPatchFormat.PastedFree` | tools/mlvc/qppatch.py:124-134 | and a byte no range covers stays |
| `QpPatchFiles.DeltaRoundTrip` | codecs/mlvc/src/qppatch.cpp:44-102 | Python always gives the target back, C++ exactly when the ranges can be counted |
| `QpPatchFiles.SparseFileRefused` | codecs/mlvc/src/qppatch.cpp:71-72 | for every gap below 7 a written file of one range too many, which Python applies and C++ refuses |
| `QpPatchFiles.CppTakesAllIff` | codecs/mlvc/src/qppatch.cpp:44-102 | C++ accepts every file that can be written with a gap exactly when the gap is at least 7 |
| `QpPatchFiles.CheckRanges` | codecs/mlvc/src/qppatch.cpp:79-92 | the first pass: bounds and total |
| `QpPatchFiles.ApplyQppatch` | codecs/mlvc/src/qppatch.cpp:44-102 | in place: the patched base on Ok, the base untouched otherwise |
| `QpPatchFiles.WritePatch` | tools/mlvc/qppatch.py:142-153 | the self check never fails |
| `QpDynamic.RewriteKeepsMeaning` | tools/mlvc/onnx_rewrite.py:296-400 | with every row input bound to its table's row, all outputs keep their values for every graph of the intended form, every meaning of the operators and all inputs, exactly when no output is an index, a table or a look-up |
| `QpDynamic.RunsAgree` | tools/mlvc/onnx_rewrite.py:369-379 | node by node the two graphs stay in agreement, rows standing in for look-ups |
| `QpDynamicPass.MakeQpDynamic` | tools/mlvc/onnx_rewrite.py:296-400 | succeeds exactly on the convertible graphs and yields the rewritten graph with one right table for each source |
| `QpDynamicRules.ConvertsExactly` | tools/mlvc/onnx_rewrite.py:319-359 | when the pass succeeds, in plain terms: there is an index, each is read, whatever reads one is a gather by it from a half precision table [N, C, 1, 1] that only gathers read, and no two tables want one row name |
| `QpDynamicRules.IndicesAre` | tools/mlvc/onnx_rewrite.py:313-318 | the indices are the graph inputs named like one without an initialiser |
| `QpDynamicRules.RowNameIs` | tools/mlvc/onnx_rewrite.py:350-351 | the row input is named by what follows the last dot, and _row |
| `QpDynamicRules.RowIs` | tools/mlvc/onnx_rewrite.py:361-367 | a row is the C numbers from q * C on, and the host binds the same |
| `QpDynamicRules.NodesKept` | tools/mlvc/onnx_rewrite.py:375-384 | the kept nodes are exactly those that read no index, in their order, with look-ups replaced by row names |
| `QpDynamicRules.RewrittenIs` | tools/mlvc/onnx_rewrite.py:386-400 | inputs, initialisers and outputs of the rewritten graph, name by name |
| `QpDynamicRules.TablesCarry` | tools/mlvc/onnx_rewrite.py:361-367 | every table carries its source's shape and numbers |
| `QpDynamicRules.NodeComputes` | tools/mlvc/onnx_rewrite.py:296-400 | what the evaluation means: a node computes its outputs in order from what its inputs are when the nodes before it have run, and changes nothing else |
| `QpDynamicPass.FindTable` | tools/mlvc/onnx_rewrite.py:340-363 | one table for each row name, a clash of names refused |
| `QpDynamicPass.TakeLookUp` | tools/mlvc/onnx_rewrite.py:321-367 | the checks on one look-up |
| `QpDynamicPass.KeepNodes` | tools/mlvc/onnx_rewrite.py:369-379 | the kept nodes, their inputs rewired |
| `QpDynamicPass.KeepInputs` | tools/mlvc/onnx_rewrite.py:387-392 | the kept inputs |
| `QpDynamicPass.SuitableConverts` | tools/mlvc/onnx_rewrite.py:296-367 | on graphs of the intended form the pass succeeds when every index is used and no row names clash |
| `QpDynamicPass.LookUpAsOutputIsLost` | tools/mlvc/onnx_rewrite.py:369-400 | a graph the pass accepts whose output is gone |
| `DepthToSpace.Inverses` | codecs/mlvc/src/pixel.cpp:230-241 | depth to space and space to depth undo each other |
| `DepthToSpace.ReshapeTransposeReshape` | tools/mlvc/onnx_rewrite.py:465-481 | the transpose of any batch by the permutation, between the two reshapes, is space to depth in every sample, and the plain loops give the source back |
| `DepthToSpace.NchwD2s` | codecs/mlvc/src/pixel.cpp:230-241 | the plain loops are depth to space, for all shapes and block sizes |
| `DepthToSpace.D2sCell` | codecs/mlvc/src/pixel.cpp:230-241 | every output cell in plain arithmetic |
| `DepthToSpace.Nc1hwc2D2s` | codecs/mlvc/src/pixel.cpp:291-313 | the fused loops are unpacking followed by the plain ones, for block sizes up to the sixteen offsets they keep |
| `DepthToSpace.FusedCellIs` | codecs/mlvc/src/pixel.cpp:291-313 | every output cell of the packed form in plain arithmetic |
| `RateControl.AllocateFits` | codecs/mlvc/src/ratectl.cpp:118-148 | an allocation is not negative and fits under nine tenths of the bucket |
| `RateBehaviour.FillIs` | codecs/mlvc/src/ratectl.cpp:82-90 | the fill at a time: the rate times the seconds gone by is out, or everything |
| `RateBehaviour.NominalIs` | codecs/mlvc/src/ratectl.cpp:118-122 | the nominal size of a frame |
| `RateBehaviour.ExcessIs` | codecs/mlvc/src/ratectl.cpp:98-116 | what heavy frames are let off: forgotten within half a second, grown by the weight above one, never more than half a bucket |
| `RateBehaviour.FullerGetsLess` | codecs/mlvc/src/ratectl.cpp:118-148 | of two allocators that differ in the fill alone the fuller one is allocated no more |
| `RateBehaviour.AllocationIs` | codecs/mlvc/src/ratectl.cpp:118-148 | with room: the nominal size where it meets the target; below it the difference over a second, or what the type asks for, on top, up to twice; above it the difference within a quarter of a second less, down to a third |
| `RateBehaviour.SpreadIs` | codecs/mlvc/src/ratectl.cpp:126-132 | what a difference comes to for each of the frames of so many seconds |
| `RateBehaviour.OvershootIsPaid` | codecs/mlvc/src/ratectl.cpp:126-132 | less than the nominal size once the overshoot is a quarter of the frame rate |
| `RateBehaviour.NothingWhen` | codecs/mlvc/src/ratectl.cpp:133-148 | nothing exactly when not even a third fits under nine tenths |
| `RateBehaviour.FullBucketExample` | codecs/mlvc/src/ratectl.cpp:118-148 | 260000 bits in a bucket of 1 Mbit: a plain frame gets 13200 |
| `RateControl.LearnedOk` | codecs/mlvc/src/ratectl.cpp:172-189 | learning keeps alphas positive and beta between its base and ramp target |
| `RateBehaviour.LearnsCost` | codecs/mlvc/src/ratectl.cpp:172-189 | with exp turning sums into products: at the level a frame was coded with, what the model takes a pixel to cost moves half way to what it did cost, whatever the ramp does |
| `RateBehaviour.LearnsSeed` | codecs/mlvc/src/ratectl.cpp:172-178 | the first frame after a reset moves the seed in the same way, later ones leave it |
| `RateBehaviour.RampSteps` | codecs/mlvc/src/ratectl.cpp:179-188 | nine even steps from the base to the target |
| `RateControl.RunsStayBounded` | codecs/mlvc/src/ratectl.cpp:82-252 | over every run with time not running backwards, frames within their allocation and retunes with room: fill in 0 to 0.9 of capacity, weights in 1 to 10, excess in 0 to half, alphas positive, betas in range |
| `RateBehaviour.BoundedMeans` | codecs/mlvc/src/ratectl.cpp:82-252 | those bounds in numbers |
| `RateControl.RetuneKeepsIff` | codecs/mlvc/src/ratectl.cpp:65-80 | a retune keeps the bounds exactly when what is held fits the new bucket |
| `RateControl.HigherRateFits` | codecs/mlvc/src/ratectl.cpp:65-80 | a rate that is not lower always has room for what is held, so the bounds stay |
| `RateControl.LowerRateOverfills` | codecs/mlvc/src/ratectl.cpp:65-80 | one that does not |
| `RateControl.CreatedBounded` | codecs/mlvc/src/ratectl.cpp:43-63 | a new controller is within the bounds |
| `RateBehaviour.StartsWith` | codecs/mlvc/src/ratectl.cpp:18-63 | the bucket and the four models a controller starts with |
| `RateControl.RateController.SolveFrame` | codecs/mlvc/src/ratectl.cpp:209-233 | allocation and level, left for the update; a drop exactly when nothing is allocated |
| `RateBehaviour.WeightIs` | codecs/mlvc/src/ratectl.cpp:199-207 | half of what the last frame weighed above one is left, and a key frame weighs at least ten, a recovery six |
| `RateBehaviour.SolveAsksModel` | codecs/mlvc/src/ratectl.cpp:209-233 | the level is asked of the frame type's own model for the bits a pixel may cost, overhead off, and cut to 0..63 |
| `RateControl.RateController.UpdateFrame` | codecs/mlvc/src/ratectl.cpp:235-252 | bucket, models, resets and weight after a frame |
| `RateBehaviour.UpdateBooks` | codecs/mlvc/src/ratectl.cpp:235-252 | fill, time and excess after a frame, which model learns, and which go back to their seeds |
| `RateControl.RateController.Configure` | codecs/mlvc/src/ratectl.cpp:65-80 | the new bucket |
| `RateBehaviour.RetuneShifts` | codecs/mlvc/src/ratectl.cpp:65-80 | a new rate: a second of it, and as far above a tenth as before, within the bucket |
## Left out

- RansEncoding.RansEncoder.Encode: requires value plus offset to stay in int32 above -2^31, where the source's signed addition would overflow; the encoder and the coder are of the same variant, which the source does not check.
- RansLimits.RoundTripsIff: coders with more than 23 symbol bits are left out; WideCoderFails has one that loses a value, and whether all of them do is open.
- RansDecoding.RansDecoder.Decode: the coder, unless empty, is of the decoder's variant, which the source does not check; does not model the overflow of the signed additions on a corrupt stream; its values are unbounded integers.
- RansDecoding.RansDecode: after Invalid or Format says nothing of the array.
- RansEncoding.RansEncoder.Grow: allocation failure is modelled as the wrap of the capacity alone.
- Shifts and bit unions are products, quotients and sums of disjoint bits; the 128-bit line of mul64hi is modelled, not its fallback.
- ExecutorTheorems.NoStuckPipeline: threads are a step system on values, one lock region or queue operation a step; process and flush are functions of the frames seen so far, pass on a failed emit, and never return Again or Eof of their own, except Eof from the source.
- ExecutorTheorems.EofMeansComplete: the client may cancel with any error at any time, which is more than the session does.
- ExecutorTheorems.DeliveryIsPrefix: graphs are chains, as Graph::build makes them; port negotiation, bridges and the device download are not modelled.
- Queues.RunsAreSafe: one condition variable notification wakes at most one sleeper; scheduling fairness is not modelled.
- Lockstep.StaysInLockstep: the neural network is an uninterpreted function with the same feature on both sides; conversions to and from NV12 are part of it; network failures, emit failures and allocation failures of the encoder end the run and are not part of it; the rate controller's verdict is an arbitrary input; pictures are not empty and payload sizes below 2^32.
- MlvcNodes.MlvcEncoder.Process: geometry and format checks of the input frame, side data, the bitrate branch that creates or retunes the controller, and time stamps are left out.
- MlvcNodes.MlvcDecoder.LazyInit: of the set-up only rungs, table rows, geometry and references are modelled, not tensor names and layouts.
- MlvcNodes.MlvcDecoder.Process: the key frame flag the decoder sets on its output frames is left out.
- QpDynamicRules.IndicesAre: which input names mean an index is a parameter; the source compares lower-cased substrings.
- PsStreams.ProgramStreamRoundTrip: chunks are those append accepts, a condition on its return values; SmallChunksRoundTrip needs none. Null pointers are left out.
- PsStreams.OneCodecRoundTrip: streams that switch codec are covered by ProgramStreamRoundTrip, which says which map each frame is read with.
- QpPatchFiles.WritePatch: writing the file and its metadata are left out.
- QpDynamic.RewriteKeepsMeaning: look-ups along axis 0 from tables nothing else reads, single assignment, topological order, row names not used before; subgraphs, value infos and element types beyond half precision are left out.
- DepthToSpace.ReshapeTransposeReshape: the guards that skip nodes without a fixed shape are left out.
- DepthToSpace.Nc1hwc2D2s: shapes with a zero extent are left out; the loops write nothing for them.
- RateControl.RunsStayBounded: doubles are reals and casts to int64 truncate without overflow; exp is known only to be positive; the choice of the level is an arbitrary function clamped to 0..63.
- Floating-point pixel work (half precision, NV12, bicubic, residuals): rounding and saturation only.
- Hardware codecs, NPU bindings, SVT-AV1, dma-buf, file nodes, plugin loading, device probing, the C interface and command lines: foreign calls and I/O.
- SHA-256, plan fallback, spec merging, ROI clamping, registry order: easy next to the rest, or unused by it.
