# A verified model of the rskafka client core

rskafka is an asynchronous Kafka client written in Rust. This project models the parts of it where bytes, shared
state and interleavings meet, and proves what they promise:

- **Wire format** (`Primitives`, `VecBuilder`, `RecordFormat`, `RecordIo`, `RecordErrors`, `RecordCuts`, `Sizes`,
  `Frame`): big-endian integers, varints, record batches, fetch record sets and length-prefixed frames. `RecordFormat` holds the format as functions with
  all error cases. `RecordIo`, `VecBuilders` and `Frames` hold the reading and writing loops as code, each proved
  equal to the format. Round trips, the byte layout, what is rejected, and what cut-off or arbitrary input yields are
  lemmas.
- **One connection, many requests** (`Messenger`, `WriteLock`): requesters, the background reader, poisoning,
  cancellation and failing writes as interleaved steps, with invariants over every run.
- **The batching producer** (`Broadcast`, `Producer`, `Partition`): aggregation, linger timers, flush tokens, one-shot
  broadcast of results, and the mapping of public records to a batch and back.
- **The stream consumer** (`Consumer`, `ConsumerLog`): the polling state machine against any broker, and against an
  append-only log.
- **Caches, retries, Snappy** (`Caches`, `Leaders`, `Backoff`, `Snappy`): generation-checked caches, several partition
  clients on one metadata cache, the exponential backoff, and the loop that decompresses without trusting the
  declared size.

Interleavings are modelled by a total function `Apply(state, step)`, in which a step that cannot happen changes
nothing, and `Exec(steps)`, which runs any sequence of steps from the initial state. A lemma about `Exec(steps)` is
thus a statement about every run. Code that updates fields or loops is a class or a method whose `ensures` equates the
new state with such a function of the old one.

## Where a promise does not hold

Some promises fail on some inputs. For each there is a lemma that says exactly when it holds.

- `BatchProducer::flush` is documented to block until all pending writes complete (src/client/producer.rs:656-660). It
  waits only for writes no earlier manual flush has taken over: `Producer.ManualFlushWaitsForAllIff`,
  `Producer.OverlappingFlushMisses`.
- With the limit 0 the loop that discards an oversized message never ends, so nothing after it is ever read:
  `Frames.DiscardEndsIff`, `Frames.StuckIff`, `Frames.StreamDecodesIff`.
- A failed write is meant to poison the connection, because framing may be out of step (src/messenger.rs:419). The
  result of a write whose requester was cancelled is dropped instead (src/messenger.rs:701-707), so a torn frame can
  stay on a connection in use: `WriteLock.PoisonedIff`, `WriteLock.WireIsWholeFramesIff`,
  `WriteLock.TornOnlyIfDetached`, `WriteLock.DetachedFailureTears`. The lock is also free
  again for a moment before the requester of a failed write poisons the connection.
- `request` expects that nobody closes its response channel. Correlation IDs repeat after 2^32 requests; from then on
  registering, and cancelling an unsent request, can take away the map entry of another request that awaits:
  `Messenger.NobodyStrandedIff`, `Messenger.FewRequestsStrandNobody`, `Messenger.ReissueStrandsTheOlder`,
  `Messenger.CancelStrandsTheNewer`.
- End of input inside a record batch is taken for a set that the broker cut off (src/protocol/primitives.rs:823-826).
  A batch that arrived whole, with the right checksum, but whose body runs out ends the list silently as well, and all
  later batches are lost: `RecordCuts.WholeBatchLostIff`, `RecordCuts.ShortBodyLosesTheRest`.
- Timestamps finer than a millisecond change on the way: `Partition.TimestampSurvivesIff`,
  `Partition.ProducedRecordsComeBack`.
- A record at offset `i64::MAX` makes the consumer's next offset wrap: `Consumer.NextOffsetIsBeyondIff`,
  `Consumer.WrapAroundGoesBack`. (The increment wraps in release builds; with overflow checks it panics.)
- Snappy data whose size prefix is not in shortest form is decoded from the wrong position:
  `Snappy.LoopMatchesDirectIff`, `Snappy.RedundantPrefixFails`.
- The backoff panics on an empty sampling range for some configurations: `Backoffs.AlwaysSamplesIff`.
- A filtered metadata look-up compares counts, not names. It finds exactly what is cached if and only if no cached name
  is repeated: `MetadataCaches.FilteredGetSucceedsIff`, `MetadataCaches.RepeatedNameHidesMissingTopic`.
- Stale metadata is meant to be refreshed when the leader it names disagrees (src/client/partition.rs:434-437, 481-487).
  But the generation that would be invalidated is that of the leader's own answer, which never comes from the cache, so
  the stale response stays. The failed get hands out no generation either, so a retry invalidates nothing and uses the
  same response again. The same happens with a response that has the topic but names no leader:
  `Leaders.FailedGetKeepsResponseIff`, `Leaders.GetChangesNothingIff`, `Leaders.StaleResponseSticks`,
  `Leaders.DisagreeingLeaderSticks`.
- The rollover of the flush clock is called unproblematic (src/client/producer.rs:528-529). A linger timer flushes a batch
  it was not set for exactly if a positive multiple of 2^64 flushes has passed since it was set:
  `Producer.TimerFlushesAnotherBatchIff`, `Producer.RolloverFlushesEarly`.
- A fetch that returns only control batches does not move the consumer, which then asks for the same offset again:
  `LogConsumer.FetchMovesIff`, `LogConsumer.ControlBatchStandsStill`.

## Assumptions

- The checksum and the UTF-8 test are parameters (`Env`); every theorem holds for any choice of them.
- The codec is the build without compression features, so only uncompressed bodies are read and written.
- `|` of disjoint bits and `<<` are written as addition and multiplication, with truncation to 64 bits explicit.
- The zig-zag varints come from a library. They follow its documented format: at most ten groups, little-endian,
  zig-zag. Ten continuation bytes are malformed here; the library may look for an eleventh byte first, and then report
  the end of input if there is none. How many bytes it has consumed when it fails is not modelled.
- `BTreeMap` headers are the list of their entries in key order; `HeaderMaps.CollectIsSorted` and
  `HeaderMaps.CollectFinds` say why that is faithful.
- `usize` has 64 bits.
- Random draws, fetch answers, produce results, task completion and connection outcomes are arbitrary inputs.
- Backoff durations are reals.

## Model

| member | source | states |
|---|---|---|
| `Primitives.IntRoundTrip` | src/protocol/primitives.rs:56-163 | A two's complement big-endian integer of any width reads back, for every value that fits, and leaves any suffix. |
| `Primitives.FirstByteWeighsMost` | src/protocol/primitives.rs:56-163 | The most significant byte comes first. |
| `Primitives.BytesRoundTrip` | src/protocol/primitives.rs:56-163 | Every byte string of a width stands for one number, and only that number is written so. |
| `Primitives.TwosComplement` | src/protocol/primitives.rs:56-163 | The bytes of -1 - x are those of x with every bit flipped. |
| `Primitives.UnsignedRoundTrip` | src/protocol/primitives.rs:229-278 | Every u64 written as a varint reads back, leaving any suffix, in at most ten bytes. |
| `Primitives.UnsignedIsMinimal` | src/protocol/primitives.rs:258-278 | No sequence of groups that means the same number is shorter than what the writer emits. |
| `Primitives.ShortestIsUnique` | src/protocol/primitives.rs:258-278 | Of all encodings of a number, only the writer's has its length. |
| `Primitives.EncodedLength` | src/protocol/primitives.rs:258-278 | The encoding takes at most n bytes exactly for values below 128^n. |
| `Primitives.UnsignedErrors` | src/protocol/primitives.rs:233-255 | Ten continuation bytes are malformed, fewer and then nothing are the end of input, and nothing else fails. |
| `Primitives.ZigZagAlternates` | src/protocol/primitives.rs:201-218 | 0, -1, 1, -2 and so on become 0, 1, 2, 3 and so on. |
| `Primitives.VarintBytes` | src/protocol/primitives.rs:258-278 | The low group comes first, and all but the last carry the high bit. |
| `Primitives.VarlongRoundTrip` | src/protocol/primitives.rs:201-218 | Every i64 survives zig-zag varint writing and reading, leaving any suffix. |
| `Primitives.VarintRoundTrip` | src/protocol/primitives.rs:172-192 | Every i32 survives, including the narrowing from 64 bits. |
| `Primitives.VarintOverflow` | src/protocol/primitives.rs:176-185 | A number that does not fit 32 bits is an overflow, and every other one is read. |
| `VecBuilders.VecBuilder.constructor` | src/protocol/vec_builder.rs:30-48 | Starts empty, with as many elements per block as fit into it, or the expected count for elements without size. |
| `VecBuilders.MostThatFit` | src/protocol/vec_builder.rs:30-38 | A block takes as many elements as fit into its bytes, and all if they have no size. |
| `VecBuilders.VecBuilder.EnsureRoom` | src/protocol/vec_builder.rs:60-66 | Opens a block when the last is full; the contents stay. |
| `VecBuilders.VecBuilder.Push` | src/protocol/vec_builder.rs:54-69 | Appends one element to the contents, across block borders. |
| `VecBuilders.VecBuilder.IntoVec` | src/protocol/vec_builder.rs:105-121 | The vector is the contents in order, for one block or many. |
| `VecBuilders.ReadBlock` | src/protocol/vec_builder.rs:81-99 | One round appends exactly the next bytes of the reader, or meets the end of input. |
| `VecBuilders.ReadExactInto` | src/protocol/vec_builder.rs:74-102 | Appends exactly the remaining number of bytes; fails exactly if the reader has fewer; never more than one block is filled ahead of the data. |
| `VecBuilders.Reader.ReadUnsigned` | src/protocol/primitives.rs:233-255 | The shift-and-or loop computes the base-128 value modulo 2^64, and fails exactly on an eleventh group or the end of input. |
| `VecBuilders.TruncatedSum` | src/protocol/primitives.rs:233-255 | Truncating each shifted group loses nothing below the tenth group. |
| `VecBuilders.TenthGroupKeepsOneBit` | src/protocol/primitives.rs:233-255 | Of a tenth group only the lowest bit is kept. |
| `RecordIo.Writer.WriteUnsigned` | src/protocol/primitives.rs:262-277 | The shifting write loop appends the varint encoding. |
| `RecordIo.ReadVarlong` | src/protocol/primitives.rs:205-211 | Reading with a cursor agrees with the format. |
| `RecordIo.ReadVarint` | src/protocol/primitives.rs:176-185 | Agrees with the format; a value outside i32 is an overflow. |
| `RecordIo.ReadHeader` | src/protocol/record.rs:48-67 | The header reader returns what the format says and stops where it says, errors included. |
| `RecordIo.ReadHeaders` | src/protocol/record.rs:141-149 | The loop over the header count does the same for all headers. |
| `RecordIo.ReadRecord` | src/protocol/record.rs:104-165 | A record is read through its length limit and must use it up; every error case is the format's. |
| `RecordIo.ReadRecords` | src/protocol/record.rs:513-537 | The loop over the record count agrees with the format. |
| `RecordIo.ReadPayload` | src/protocol/record.rs:513-537 | A control batch must hold one control record; otherwise records. |
| `RecordIo.ReadBody` | src/protocol/record.rs:544-715 | Attributes, fixed fields, the special count -1 and the payload agree with the format, errors included. |
| `RecordIo.ReadBatch` | src/protocol/record.rs:349-427 | Length, magic, checksum and trailing-data tests in the source's order; result, error and position agree with the format. |
| `RecordIo.ReadBatches` | src/protocol/primitives.rs:819-832 | The loop stops silently at the end of input and fails on any other error. |
| `RecordIo.ReadRecordSet` | src/protocol/primitives.rs:814-835 | A record set is read as nullable bytes and then batch by batch. |
| `RecordIo.PutHeader` | src/protocol/record.rs:71-83 | Appends the written header or fails as the format does. |
| `RecordIo.PutHeaders` | src/protocol/record.rs:212-219 | The loop appends all headers in order. |
| `RecordIo.PutRecord` | src/protocol/record.rs:172-230 | The record is written to a buffer first and then behind its length. |
| `RecordIo.PutRecords` | src/protocol/record.rs:757-771 | The loop appends all records in order. |
| `RecordIo.PutPayload` | src/protocol/record.rs:757-771 | A control record or the records. |
| `RecordIo.PutBody` | src/protocol/record.rs:777-882 | Appends attributes, fields, count and payload, or fails as the format does. |
| `RecordIo.PutBatch` | src/protocol/record.rs:434-493 | Appends the batch with length and checksum computed from the buffered body. |
| `RecordIo.PutRecordSet` | src/protocol/primitives.rs:842-850 | Batches are buffered and written as nullable bytes. |
| `RecordRoundTrip.HeaderRoundTrip` | src/protocol/record.rs:44-84 | A written header reads back and leaves any suffix. |
| `RecordRoundTrip.SingleRecordRoundTrip` | src/protocol/record.rs:100-231 | A written record, null key and value included, reads back and leaves any suffix. |
| `RecordRoundTrip.RecordsRoundTrip` | src/protocol/record.rs:513-537 | So does a sequence of records. |
| `RecordRoundTrip.AttributesRoundTrip` | src/protocol/record.rs:545-565 | The attribute word determines compression, timestamp type, transactional and control flags, at the documented bits. |
| `RecordRoundTrip.PayloadRoundTrip` | src/protocol/record.rs:244-286 | Control markers and records read back and use up their bytes. |
| `RecordRoundTrip.FieldsRoundTrip` | src/protocol/record.rs:544-590 | The fixed fields of a body read back in order. |
| `RecordRoundTrip.BodyRoundTrip` | src/protocol/record.rs:540-883 | A written body reads back as the whole batch. |
| `RecordRoundTrip.BatchRoundTrip` | src/protocol/record.rs:345-494 | Reading a written batch followed by anything returns the batch and leaves the rest, for any checksum function. |
| `RecordRoundTrip.BatchLayout` | src/protocol/record.rs:430-494 | Every header field sits at its documented byte position; the length counts what follows it and the checksum covers bytes 21 on. |
| `RecordRoundTrip.BodyLayout` | src/protocol/record.rs:773-883 | The same for the fields of the body. |
| `RecordErrors.RecordLayout` | src/protocol/record.rs:168-231 | A record is its length, a zero byte, both deltas, key, value, header count and headers, in that order. |
| `RecordErrors.NullableLayout` | src/protocol/record.rs:186-210 | Null is the one byte of -1, a value its length and bytes. |
| `RecordErrors.HeadersLayout` | src/protocol/record.rs:67-84 | Headers follow each other, each as key and value with their lengths. |
| `RecordErrors.ControlLayout` | src/protocol/record.rs:268-286 | The four bytes of abort and commit markers. |
| `RecordErrors.AttributeBits` | src/protocol/record.rs:777-798 | The documented codec numbers and flag bits of the attribute word. |
| `RecordErrors.BlobLength` | src/protocol/record.rs:48-67 | A negative length is malformed, one beyond the input is the end of input. |
| `RecordErrors.NullableLength` | src/protocol/record.rs:119-139 | The same with -1 as null. |
| `RecordErrors.HeaderKeyMustBeText` | src/protocol/record.rs:48-67 | A header key that is not valid UTF-8 is malformed. |
| `RecordErrors.ReadBatchIsValid` | src/protocol/record.rs:345-428 | Whatever bytes arrive, a batch that is read has only valid header keys. |
| `RecordErrors.BodyReads` | src/protocol/record.rs:104-149 | Any attribute byte is accepted, a negative header count is malformed, and an error in a header is the record's. |
| `RecordErrors.RecordMustUseItsLength` | src/protocol/record.rs:151-156 | Bytes that a record's fields leave over are malformed, whether they have arrived or not. |
| `RecordErrors.ControlReads` | src/protocol/record.rs:248-265 | A control record of another version or an unknown type is malformed. |
| `RecordErrors.UnknownCompression` | src/protocol/record.rs:545-558 | An unknown codec is malformed, whatever follows. |
| `RecordErrors.BodyOutcome` | src/protocol/record.rs:540-716 | For every known codec, the outcome of reading a body: counts below -1, -1, missing codecs, control batches with another count than one, and otherwise the batch that the fields describe. |
| `RecordErrors.RecordSetLength` | src/protocol/primitives.rs:571-585 | A null record set holds no batches, other negative lengths are malformed, and one beyond the input is the end of input. |
| `RecordErrors.NullRecordSet` | src/protocol/primitives.rs:814-835 | A written null reads as no batches and leaves any suffix. |
| `RecordErrors.RecordWrittenIff` | src/protocol/record.rs:168-231 | A record can be written exactly if its lengths, header count and body fit 32 bits. |
| `RecordErrors.BatchWrittenIff` | src/protocol/record.rs:430-494 | A batch can be written exactly if it is uncompressed, its records can be written, and count and length fit 32 bits; each failure has its error. |
| `Sizes.RecordSizeOnTheWire` | src/record.rs:14-26 | A written record is at least its approximate size, and larger by at most 36 bytes and 10 for each header. |
| `Sizes.BatchSizeOnTheWire` | src/client/partition.rs:644-714 | The same for a produce batch, which can be written if that bound fits 32 bits. |
| `Sizes.ProduceBatchBytes` | src/client/partition.rs:677-703 | The header bytes of a produce batch: zero base offset, epoch and flags, -1 for producer, epoch and sequence, and its counts. |
| `Sizes.CompressionIsRefused` | src/protocol/record.rs:779-786 | Without codecs, asking for compression makes every produce batch fail. |
| `RecordRoundTrip.CutBatchIsEof` | src/protocol/record.rs:345-428 | Every proper prefix of a written batch ends in end-of-input and in no other error. |
| `RecordRoundTrip.CutBatches` | src/protocol/primitives.rs:810-836 | Cutting concatenated batches anywhere leaves exactly the batches that end at or before the cut. |
| `RecordRoundTrip.WholeBatchesExist` | src/protocol/primitives.rs:810-836 | Every cut point has such a number of whole batches, so the previous row applies to every cut. |
| `RecordRoundTrip.CutRecordSet` | src/protocol/primitives.rs:810-836 | A record set the broker cut at any byte reads as its whole batches, never as an error. |
| `RecordCuts.CutReadsAlike` | src/protocol/record.rs:345-428 | For arbitrary bytes, a cut changes how a batch reads in one way only: it may meet the end of input. |
| `RecordCuts.PrefixYieldsPrefix` | src/protocol/primitives.rs:810-836 | For arbitrary bytes, a prefix yields a prefix of the batches and no error that the whole does not give. |
| `RecordCuts.RunsOutIff` | src/protocol/primitives.rs:820-832 | A batch that arrived whole reads as none exactly if magic and checksum are right and its body runs out of bytes. |
| `RecordCuts.WholeBatchLostIff` | src/protocol/primitives.rs:820-832 | Reading that ends without an error has passed over a whole batch exactly if it stopped at such a batch. |
| `RecordCuts.ShortBodyLosesTheRest` | src/protocol/primitives.rs:820-832 | Such a batch exists for every checksum function, and everything behind it is lost. |
| `RecordRoundTrip.RecordSetRoundTrip` | src/protocol/primitives.rs:810-851 | An uncut record set reads back whole. |
| `Frames.DiscardEndsIff` | src/protocol/frame.rs:51-64 | The discard loop ends exactly for a positive limit or an empty message. |
| `Frames.StuckIff` | src/protocol/frame.rs:51-64 | A read goes round for ever exactly when it meets a message whose discard loop does not end. |
| `Frames.ReadMessage` | src/protocol/frame.rs:41-75 | Whenever it ends, it returns the message, or rejects an oversized one after skipping exactly its bytes, or fails as the stream demands. |
| `Frames.FrameRoundTrip` | src/protocol/frame.rs:41-111 | A frame reads back as its message, or is rejected while exactly its own bytes are consumed; with the limit 0 the reader sticks to a frame that is not empty. |
| `Frames.CutFrameIsEof` | src/protocol/frame.rs:41-75 | A cut frame is end-of-input, unless its length has arrived and the limit is 0. |
| `Frames.NegativeFrame` | src/protocol/frame.rs:47-48 | A negative length is rejected as such. |
| `Frames.StreamThen` | src/protocol/frame.rs:41-111 | With a positive limit, whole frames are read in order, oversized ones as rejected, and what follows is read as if it came first. |
| `Frames.StreamDecodes` | src/protocol/frame.rs:41-111 | With a positive limit, whole frames and then a cut one decode to the whole messages in order and leave the cut one. |
| `Frames.ZeroLimitSticks` | src/protocol/frame.rs:51-64 | With the limit 0, reading gets as far as the first message that is not empty. |
| `Frames.StreamDecodesIff` | src/protocol/frame.rs:41-75 | All messages of a stream get through, as themselves or as rejected, exactly if the limit is positive or all are empty. |
| `WriteLock.RunKeeps` | src/messenger.rs:415-437 | Every interleaving of writes, cancellations, failures and reports keeps the lock invariant. |
| `WriteLock.WireIsParts` | src/messenger.rs:426-437 | In every run the wire is what each write put there while it held the lock, in lock order, each once, and then the holder's part. |
| `WriteLock.WireIsWholeFramesIff` | src/messenger.rs:415-437 | The wire is the sent frames and then a part of the holder's frame exactly unless some write failed after its first byte. |
| `WriteLock.PoisonedIff` | src/messenger.rs:415-424 | In every run the connection is poisoned, or about to be, exactly if some write failed whose requester was not cancelled; a detached failure never poisons it. |
| `WriteLock.TornOnlyIfDetached` | src/messenger.rs:415-424 | In every run a torn frame comes from a write whose requester was cancelled, or its requester has poisoned or is about to poison the connection. |
| `WriteLock.DetachedFailureTears` | src/messenger.rs:701-707 | A run in which a cancelled write fails half-way, nobody poisons the connection, and another frame follows the torn one. |
| `WriteLock.WireDecodes` | src/messenger.rs:426-437 | Without torn frames and with a positive limit, a reader gets the sent messages in order, and the holder's too exactly once its last byte is out. |
| `WriteLock.MessagesBeforeTearDecode` | src/messenger.rs:426-437 | In every run the messages sent before the first torn frame are read first and in order. |
| `WriteLock.CancelDoesNotInterrupt` | src/messenger.rs:678-741 | Cancelling a write that holds the lock changes neither lock nor wire, and its remaining steps stay possible. |
| `WriteLock.CancelledInTheQueueIsNeverSent` | src/messenger.rs:426-437 | A write cancelled before it got the lock puts no byte on the wire in any continuation. |
| `Messenger.Connection.PoisonWith` | src/messenger.rs:80-104 | The draining loop tells every active request, and only them, and the first error stays. |
| `Messenger.Connection.Take` | src/messenger.rs:242-258 | The look-up is the receiving step: the answered entry leaves the map and the reader owns it, an unknown ID is skipped, and a poisoned connection stops the reader. |
| `Messenger.Connection.RegisterRequest` | src/messenger.rs:372-392 | A poisoned connection refuses; otherwise the request is mapped, and a sender it displaces is dropped. |
| `Messenger.Connection.CleanUp` | src/messenger.rs:643-676 | Only an unsent request is removed, and never from a poisoned connection. |
| `Messenger.RunKeeps` | src/messenger.rs:221-437 | Every run keeps the invariant on owners, outcomes, frames and entries, with IDs reissued or not. |
| `Messenger.RequestIsExpected` | src/messenger.rs:349-395 | A request registered under a free ID and sent waits under that ID, and nobody else is touched. |
| `Messenger.ResponseIsReturned` | src/messenger.rs:225-282 | The frame with its ID finishes a waiting request with that very frame, takes its entry, and touches nobody else. |
| `Messenger.HeaderErrorIsReturned` | src/messenger.rs:260-273 | A response whose tagged fields cannot be read finishes only its own request, with that error. |
| `Messenger.PoisonIsReturned` | src/messenger.rs:284-289 | When the reader or another send fails, a waiting request finishes with that error, and the sender with the same. |
| `Messenger.CancelledRequest` | src/messenger.rs:643-676 | Cancelling before the send takes the request's entry; cancelling later leaves it, and the response is thrown away. |
| `Messenger.DropClosesTheRest` | src/messenger.rs:619-623 | Dropping the messenger drops exactly the senders that are left. |
| `Messenger.OneOwner` | src/messenger.rs:57-78 | In every run an unused sender has exactly one owner, and a used or dropped one has none. |
| `Messenger.RunIsLater` | src/messenger.rs:80-104 | A sender is used or dropped at most once, an outcome is final, and the first poison error stays for ever. |
| `Messenger.WaiterIsServed` | src/messenger.rs:394-397 | Whoever awaits was answered with its own answer, is being answered, is mapped while the reader runs, or is stranded. |
| `Messenger.PoisonReachesEveryone` | src/messenger.rs:80-104 | Once poisoned, whoever awaits has its answer, gets it from the reader, or is stranded, every later request gets the first error, and the reader stops at the next frame. |
| `Messenger.ResponsesAndEntriesMatch` | src/messenger.rs:242-282 | No frame answers two requests; every map entry belongs to a request being sent, waiting, or cancelled after it was sent; no two entries share an ID. |
| `Messenger.FinishedOutcome` | src/messenger.rs:323-413 | A finished request got exactly what was sent to it, a frame with its own ID, a header error or the one poison error; or that poison error directly; or it failed to encode, and then nothing was ever sent to it. |
| `Messenger.StepStrandsIff` | src/messenger.rs:372-392 | A step closes the channel of a request that awaits exactly if it registers an ID mapped to it, or cancels another unsent request with the ID it is mapped under. |
| `Messenger.CancelStrandsIff` | src/messenger.rs:668-676 | The clean-up of a cancelled request strands exactly the awaiting request that its ID is mapped to now. |
| `Messenger.NobodyStrandedIff` | src/messenger.rs:397-397 | The expectation that nobody closes a response channel holds all through a run exactly when no step of it is such a step. |
| `Messenger.FewRequestsStrandNobody` | src/messenger.rs:349-397 | Nobody is stranded on a connection that has made at most 2^32 requests. |
| `Messenger.ReissueStrandsTheOlder` | src/messenger.rs:372-392 | A run, one request after the other, in which request 2^32 registers under the ID of a request that still waits. |
| `Messenger.CancelStrandsTheNewer` | src/messenger.rs:668-676 | A run, one request after the other, in which cancelling an old request removes the entry of request 2^32, which waits. |
| `Messenger.IdentifiersRepeat` | src/messenger.rs:349-349 | IDs repeat after 2^32 requests and not before. |
| `Messenger.IdentifiersCountUp` | src/messenger.rs:349-349 | IDs count up from zero and go on at the smallest number after the largest. |
| `Broadcast.Shared.Broadcast` | src/client/producer/broadcast.rs:57-63 | Does to slot, notification and every set of receivers what publishing, notifying and unlocking do. |
| `Broadcast.Shared.DropSender` | src/client/producer/broadcast.rs:66-78 | The same for an unused sender, which publishes that it was dropped; after a broadcast it changes nothing. |
| `Broadcast.Shared.Peek` | src/client/producer/broadcast.rs:87-91 | Returns what the peeking step returns, and nothing exactly when that step goes on to wait. |
| `Broadcast.RunKeeps` | src/client/producer/broadcast.rs:50-103 | Every interleaving of sender and receivers keeps the invariant. |
| `Broadcast.NoLostWakeUp` | src/client/producer/broadcast.rs:93-103 | After the notification no receiver sleeps or can fall asleep, and looking again finds the value. |
| `Broadcast.ReceiverReturns` | src/client/producer/broadcast.rs:57-103 | Whatever a receiver was doing when the sender published or went away, it then returns exactly that. |
| `Broadcast.NoPanic` | src/client/producer/broadcast.rs:57-103 | Neither the double-publish assertion nor the expectation after a wake-up can fail. |
| `Broadcast.SlotIsFinal` | src/client/producer/broadcast.rs:57-78 | What was published never changes. |
| `Broadcast.OneValue` | src/client/producer/broadcast.rs:87-103 | All receivers, whenever they return, return the same value. |
| `Broadcast.PeekBeforeRegisterLosesWakeUp` | src/client/producer/broadcast.rs:93-103 | With the two steps of `receive` swapped there is a run in which a receiver sleeps through the notification and then sleeps through every continuation. |
| `Aggregators.RecordAggregator.TryPush` | src/client/producer/aggregator.rs:103-115 | Accepts exactly while the summed size stays within the limit; the tag is the position; a refused record comes back. |
| `Aggregators.RecordAggregator.Flush` | src/client/producer/aggregator.rs:117-120 | Returns the buffered records and starts over. |
| `Producer.ProducerInner.Flush` | src/client/producer.rs:478-541 | A stale token changes nothing; otherwise the buffer leaves as one batch and the clock moves on. |
| `Producer.ProducerInner.Push` | src/client/producer.rs:417-470 | One retry after a flush, then an error; the first caller of a batch gets the linger role and the current token. |
| `Producer.PushMatchesInner` | src/client/producer.rs:417-470 | The code and the step of the state machine agree on buffer, role, token and tag. |
| `Producer.RunKeeps` | src/client/producer.rs:417-678 | Every interleaving of pushes, timers, manual flushes and completions keeps the invariant, rollover of the clock included. |
| `Producer.PushOutcome` | src/client/producer.rs:417-470 | In every run a push flushes first exactly if the record does not fit behind the batch, is refused exactly if it does not fit an empty one, and otherwise ends the open batch. |
| `Producer.NothingLostOrReordered` | src/client/producer.rs:478-541 | In every run the accepted records are the flushed batches in order and then the buffer, and no batch exceeds the limit. |
| `Sizes.FlushedBatchOnTheWire` | src/client/producer/aggregator.rs:103-120 | In every run a flushed batch respects the limit on the wire up to the bounded overhead, and can be written if both fit 32 bits. |
| `Producer.CallersOwnTheirRecords` | src/client/producer/batch.rs:58-124 | Each caller's tag is in bounds and names its own record; no two callers share a place. |
| `Producer.CallersGetTheirOffsets` | src/client/producer/aggregator.rs:139-141 | A batch accepted at some base gives each caller base plus its record's position, all different. |
| `Producer.CallersReturnTheirOffsets` | src/client/producer/batch.rs:49-67 | In every run of the producer and of the batch's broadcast, whoever returns after a write at some base returns base plus the position of its own record, and after a failed write that failure. |
| `Producer.RunIsLater` | src/client/producer/batch.rs:129-175 | Batches, acceptances and results are final, so all callers of a batch learn one outcome. |
| `Producer.CompletionIsRecorded` | src/client/producer/batch.rs:129-175 | In every run the result of a write is the one its task reports, and nothing else changes. |
| `Producer.OneCurrentTimer` | src/client/producer.rs:600-654 | The buffer holds something exactly while an outstanding timer was set for it, only one is, it would flush now, and before 2^64 flushes no other would. |
| `Producer.TimerFlushesAnotherBatchIff` | src/client/producer.rs:620-645 | A timer fires once: it flushes its own batch, another one exactly if a positive multiple of 2^64 flushes has passed, and otherwise changes nothing. |
| `Producer.RolloverFlushesEarly` | src/client/producer.rs:528-530 | A run in which a timer set for batch 0 flushes batch 2^64 early. |
| `Producer.EmptyBatchHasNoCallers` | src/client/producer/batch.rs:129-175 | Nobody waits for a batch that was flushed empty. |
| `Producer.ManualFlushWaitsForAllIff` | src/client/producer.rs:661-678 | A manual flush waits only for real writes, and for every write under way exactly when none taken over by an earlier manual flush is under way. |
| `Producer.OverlappingFlushMisses` | src/client/producer.rs:661-678 | Two overlapping manual flushes: the second returns while the only write is under way. |
| `HeaderMaps.CollectIsSorted` | src/client/partition.rs:884-888 | Collecting header entries in any order gives an ordered map. |
| `HeaderMaps.KeyLessIff` | src/record.rs:10-10 | Keys are ordered by the first byte that differs, a proper prefix first. |
| `HeaderMaps.CollectFinds` | src/client/partition.rs:884-888 | A repeated header key keeps the value of its last entry. |
| `HeaderMaps.CollectSorted` | src/client/partition.rs:884-888 | The headers of a public record survive being listed and collected. |
| `Partition.BuildProduceBatch` | src/client/partition.rs:644-714 | The loop over the records builds the batch with running offset deltas, timestamp deltas and the maximal timestamp. |
| `Partition.ProduceBatchHeader` | src/client/partition.rs:644-714 | The last delta is n-1, the deltas count up, and the maximal timestamp bounds every record and belongs to one. |
| `Partition.MaxTimestampIsMaximum` | src/client/partition.rs:653-660 | The running maximum is a maximum. |
| `Partition.ExtractInto` | src/client/partition.rs:834-899 | The inner loop yields the records of a batch at or after the requested offset, or the timestamp error. |
| `Partition.ExtractAll` | src/client/partition.rs:834-899 | The outer loop skips control batches and joins the rest. |
| `Partition.ExtractFilters` | src/client/partition.rs:848-854 | Whatever the broker sends, nothing before the requested offset gets through. |
| `Partition.FirstBadTimeFails` | src/client/partition.rs:846-878 | A batch fails with the error of the first record at or after the requested offset whose time is not representable. |
| `Partition.ExtractRecordsFailsIff` | src/client/partition.rs:846-878 | It fails exactly if there is such a record; earlier ones do not matter. |
| `Partition.ExtractFailsIff` | src/client/partition.rs:834-899 | Extraction fails exactly if that of a data batch does. |
| `Partition.TimestampIs` | src/client/partition.rs:856-878 | A time is the first one of the batch plus the delta, an overflow beyond 64 bits, and invalid beyond the calendar. |
| `Partition.TimestampSurvivesIff` | src/client/partition.rs:653-706 | A timestamp survives exactly if it is whole milliseconds and the batch's first one is too or is not in an earlier millisecond. |
| `Partition.RecordComesBack` | src/client/partition.rs:834-899 | Each record of a produce batch comes back with its offset, key, value and headers, and with the millisecond the reader computes. |
| `Partition.RecoveredIsClose` | src/client/partition.rs:653-706 | The millisecond that comes back is the record's, or the next one on the side of the batch's first record. |
| `Partition.ProducedRecordsComeBack` | src/client/partition.rs:644-899 | A produced batch, written, read with anything behind it and extracted, gives the records with consecutive offsets, without those before the requested one; they equal the sent ones exactly if all timestamps are whole milliseconds. |
| `Partition.RebaseOnTheWire` | src/protocol/record.rs:430-494 | Giving a batch its base offset changes only its first eight bytes. |
| `OffsetSort.SortIsStable` | src/client/consumer.rs:301-307 | Sorting orders by offset and keeps the records of each offset as they were. |
| `OffsetSort.SortedLastIsLargest` | src/client/consumer.rs:301-307 | The last sorted record has the largest offset. |
| `Consumer.StreamConsumer.Absorb` | src/client/consumer.rs:283-341 | A finished fetch is buffered in order, retried without an offset, or ends the stream. |
| `Consumer.StreamConsumer.PollNext` | src/client/consumer.rs:230-344 | The polling loop returns what the step function says and uses up as many answers. |
| `Consumer.FetchWithoutRecords` | src/client/consumer.rs:252-308 | In every run a fetch without records leaves the next offset, and the first one sets it to the fixed start or to what the broker resolved. |
| `Consumer.FetchWithRecords` | src/client/consumer.rs:301-308 | A fetch with records goes on behind the largest offset. |
| `Consumer.FailedFetch` | src/client/consumer.rs:310-341 | An out-of-range answer to a relative start forgets the offset; every other failure ends the stream with its error. |
| `Consumer.PollIsSteps` | src/client/consumer.rs:230-344 | A poll with one ready answer is a receive and then a look of the state machine. |
| `Consumer.PollSkipsEmptyAnswers` | src/client/consumer.rs:230-344 | A poll skips exactly the answers that bring nothing, is pending exactly if all do, and returns the first record or the error of the first other one. |
| `Consumer.RunKeeps` | src/client/consumer.rs:230-344 | Every run keeps the invariant. |
| `Consumer.StreamIsWhatWasFetched` | src/client/consumer.rs:230-344 | Returned items and then the buffer are exactly the fetched records, fetch by fetch, sorted, each with its own watermark. |
| `Consumer.ErrorEndsTheStream` | src/client/consumer.rs:310-341 | Only an error ends the stream, and nothing but the end follows it. |
| `Consumer.FailuresAreReported` | src/client/consumer.rs:310-341 | Exactly the failed fetches other than an out-of-range answer to a relative start are reported. |
| `Consumer.OffsetsNeverGoBack` | src/client/consumer.rs:283-341 | From a fixed start, against any broker, every returned offset is at or after the start and none is below an earlier one, unless a record sits at the largest offset. |
| `Consumer.NextOffsetIsBeyondIff` | src/client/consumer.rs:296-308 | The next offset lies beyond every fetched record exactly when none sits at the largest offset. |
| `Consumer.WrapAroundGoesBack` | src/client/consumer.rs:296-308 | A run in which the wrapped offset makes the stream go back. |
| `PartitionLog.ExtractIsRange` | src/client/partition.rs:834-899 | Extraction keeps exactly the data records at or after the requested offset, compaction gaps and control batches included. |
| `PartitionLog.FetchIsRange` | src/client/partition.rs:834-899 | A fetch of consecutive batches from the one that covers the offset yields one gap-free range of the log. |
| `LogConsumer.FetchDelivers` | src/client/consumer.rs:296-308 | One fetch delivers the log from the asked offset up to the new next offset. |
| `LogConsumer.FetchMovesIff` | src/client/consumer.rs:296-308 | A fetch moves the next offset, and then forward, exactly when its batches hold a data record at or after the asked offset. |
| `LogConsumer.ControlBatchStandsStill` | src/client/consumer.rs:296-308 | A run in which any number of fetches of a control batch returns nothing and asks for the same offset again. |
| `LogConsumer.RunFaithful` | src/client/consumer.rs:230-344 | In every run of appends, polls, fetches and failures, what was delivered since the last reset is the log from the reading's first offset up to the next offset. |
| `LogConsumer.ReadingsChangeOnlyAtResets` | src/client/consumer.rs:283-341 | A reading begins with the first fetch, at the offset it asks for, and only an out-of-range answer to a relative start ends it. |
| `LogConsumer.ReadingBeginsAt` | src/client/consumer.rs:252-269 | In every run a reading begins at the fixed start, or at the offset the broker resolved. |
| `LogConsumer.StreamReadsTheLog` | src/client/consumer.rs:230-344 | Between offset resets, what was returned and buffered is the log's data from where reading began up to the next offset: in order, nothing lost, nothing twice; a fixed start has one reading, from the start. |
| `LogConsumer.FixedStartReadsTheLog` | src/client/consumer.rs:230-344 | From a fixed start, everything ever returned or buffered is the log from the start offset up to the next offset. |
| `LogConsumer.CutFetchIsFetch` | src/protocol/primitives.rs:810-836 | A fetch response cut at any byte, decoded and extracted, is a fetch of the batches wholly before the cut, so the previous rows hold for it. |
| `Snappy.SmallerBuffer` | src/protocol/record.rs:903-1007 | A smaller buffer that succeeds, or fails for another reason than its size, shows that the full buffer fails. |
| `Snappy.DecodesIff` | src/protocol/record.rs:949-952 | Decoding succeeds exactly if all elements are sound and produce as many bytes as the buffer has, and gives what they produce. |
| `Snappy.TooSmallMeansMore` | src/protocol/record.rs:955-985 | An error that looks like a buffer that is too small is one: the data really holds more. |
| `Snappy.HeaderReads` | src/protocol/record.rs:903-1007 | The declared size must be there and fit 32 bits. |
| `Snappy.CarefullyDecompress` | src/protocol/record.rs:903-1007 | The growing-buffer loop ends with the result of one decode at the full declared size, and no buffer beyond the first is as large as twice what the data really holds. |
| `Snappy.LoopMatchesDirectIff` | src/protocol/record.rs:903-1007 | The loop agrees with decoding the data as it came, however it splits into elements, exactly when the size prefix is in shortest form. |
| `Snappy.RedundantPrefixFails` | src/protocol/record.rs:903-1007 | Empty data behind a two-byte prefix decodes directly but is rejected by the loop. |
| `Backoffs.Backoff.constructor` | src/backoff.rs:86-100 | Starts at the initial interval with nothing waited. |
| `Backoffs.Backoff.Next` | src/backoff.rs:153-172 | Returns the pending interval, or nothing past the deadline, and draws the next. |
| `Backoffs.DrawTakesEffect` | src/backoff.rs:161-164 | The first interval is the initial one, and each later one is the last draw, or the maximum if that is smaller. |
| `Backoffs.GivesUpIff` | src/backoff.rs:161-171 | A call hands out the pending interval unless all draws up to its own, capped, reach the deadline. |
| `Backoffs.NeverPanics` | src/backoff.rs:153-172 | For growth above one and a positive initial interval no greater than the maximum, no draw sequence empties the sampling range, and intervals stay between initial and maximal. |
| `Backoffs.AlwaysSamplesIff` | src/backoff.rs:153-172 | Sampling never panics exactly when the first range and the range after a draw at the maximum are not empty. |
| `Backoffs.IntervalsGrowAtMostExponentially` | src/backoff.rs:153-172 | The k-th drawn interval is less than the initial one times the base to the k. |
| `Backoffs.TotalIsAhead` | src/backoff.rs:153-172 | The running total exceeds what was handed out by the coming interval less the initial one. |
| `Backoffs.SumStaysBelowDeadline` | src/backoff.rs:153-172 | All intervals handed out add up to less than the deadline, and there are fewer than initial intervals fit into it. |
| `Backoffs.RetryWithBackoff` | src/backoff.rs:103-146 | Returns the first break, or the last failure once the deadline passes, after a bounded number of failures; the time slept stays below the deadline. |
| `GenerationCache.GenerationDenotesOneEntry` | src/connection.rs:389-411 | In every run equal generations denote the same entry. |
| `GenerationCache.GetHandsOutTheLast` | src/connection.rs:433-437 | In every run a get hands out the entry stored last with its number, or nothing if that was invalidated. |
| `GenerationCache.StoredIsHandedOut` | src/connection.rs:450-453 | What was just stored is handed out under the next generation. |
| `GenerationCache.InvalidationHitsItsOwnEntry` | src/client/metadata_cache.rs:72-87 | An invalidation removes the entry of its own handle or nothing. |
| `GenerationCache.StaleInvalidationIsHarmless` | src/connection.rs:456-472 | An entry stored later survives. |
| `MetadataCaches.MetadataCache.Snapshot` | src/client/metadata_cache.rs:39-44 | The first locked section is the get step of the generation cache: it hands out the handle of that step and changes nothing. |
| `MetadataCaches.MetadataCache.Conclude` | src/client/metadata_cache.rs:46-70 | The rest of a get, whatever happened to the cache in between: a snapshot that lacks a topic is invalidated only if it is still current. |
| `MetadataCaches.MetadataCache.Get` | src/client/metadata_cache.rs:35-70 | Without interruption, a hit returns the filtered entry and its generation, and an incomplete one clears the cache. |
| `MetadataCaches.MetadataCache.InvalidateIf` | src/client/metadata_cache.rs:72-87 | Clears the entry exactly for the current generation. |
| `MetadataCaches.MetadataCache.Update` | src/client/metadata_cache.rs:89-94 | Stores the response under the next generation. |
| `MetadataCaches.RetainTopics` | src/client/metadata_cache.rs:46-50 | The filtering loop keeps the wanted topics. |
| `MetadataCaches.RetainKeepsWanted` | src/client/metadata_cache.rs:46-50 | Exactly the cached topics with wanted names are kept. |
| `MetadataCaches.RetainConcat` | src/client/metadata_cache.rs:46-50 | The kept topics stay in their order. |
| `MetadataCaches.DistinctNamesAreFound` | src/client/metadata_cache.rs:35-70 | With distinct cached names, a filtered look-up succeeds exactly when all wanted topics are cached and none is asked for twice, and then returns those. |
| `MetadataCaches.FilteredGetSucceedsIff` | src/client/metadata_cache.rs:46-65 | Every filtered look-up succeeds exactly when it should if and only if no cached name is repeated. |
| `MetadataCaches.RepeatedNameIsNotFound` | src/client/metadata_cache.rs:46-65 | A topic whose name is repeated in the cached response cannot be looked up. |
| `MetadataCaches.RepeatedNameHidesMissingTopic` | src/client/metadata_cache.rs:35-70 | With a repeated cached name the look-up can succeed although a wanted topic is missing. |
| `BrokerCaches.ArbitraryBroker.Get` | src/connection.rs:433-454 | A get is a step of the generation cache, after a store if there was no entry and a connection could be made; it returns the handle that step hands out. |
| `BrokerCaches.ArbitraryBroker.InvalidateIf` | src/connection.rs:456-472 | The invalidation step of any handle with that generation. |
| `Leaders.PartitionBroker.LeaderOf` | src/client/partition.rs:338-411 | The leader that a response for one topic names, or the first of the six errors that applies. |
| `Leaders.FindsTheFirst` | src/client/partition.rs:370-374 | The first entry with the partition's index is found, and none exactly if there is none. |
| `Leaders.LeaderInIff` | src/client/partition.rs:338-411 | A response names a leader exactly if it has just the topic, without error, and the first entry of the partition has no error and that leader, not -1. |
| `Leaders.LeaderErrorIs` | src/client/partition.rs:338-411 | Which of the six errors a response gives otherwise. |
| `Leaders.PartitionBroker.Get` | src/client/partition.rs:418-517 | A get, metadata look-up included, is the five acts of the model in a row; it returns the connection held afterwards. |
| `Leaders.PartitionBroker.InvalidateIf` | src/client/partition.rs:519-548 | The dropping act: a stale request changes nothing, a current one drops the connection and the metadata that led to it. |
| `Leaders.GetInARun` | src/client/partition.rs:418-517 | In every run, the acts of an uninterrupted get change its client and the metadata cache as the method does, and nothing else. |
| `Leaders.RunKeeps` | src/client/partition.rs:418-548 | In every run of several clients on one metadata cache, each remembered generation stands for the response that told the client what it knows. |
| `Leaders.RemovedOnlyForAReason` | src/client/partition.rs:418-548 | In every run a cached response is removed only by a client that saw that very response, because it lacks the topic, its leader is out of reach, or it named the leader being dropped. |
| `Leaders.DroppingALeaderDropsItsMetadata` | src/client/partition.rs:519-548 | Dropping a connection drops the response that named its leader exactly if that is still the current one, and touches no other client. |
| `Leaders.GetStoresTheLeader` | src/client/partition.rs:418-517 | A stored connection goes to the broker that the metadata used and the broker's own answer both name; a failed get keeps what was there; and what either leaves in the metadata cache. |
| `Leaders.GetSucceedsIff` | src/client/partition.rs:418-517 | A get connects exactly if the metadata it uses, cached or answered, names a leader that can be reached and confirms. |
| `Leaders.FailedGetKeepsResponseIff` | src/client/partition.rs:439-503 | A failed get keeps the cached response exactly when that has the topic and names no leader, or names one that can be reached. |
| `Leaders.GetChangesNothingIff` | src/client/partition.rs:439-503 | A get has no effect at all exactly when the cached response names no leader, or one that can be reached and does not confirm. |
| `Leaders.StaleResponseSticks` | src/client/partition.rs:598-611 | In every run, any number of such gets in a row leaves everything as it was. |
| `Leaders.DisagreeingLeaderSticks` | src/client/partition.rs:478-503 | A run in which the named leader says that another broker leads, and every get fails on the same cached response. |

## Left out

- `LogConsumer.StreamReadsTheLog`: the log only grows; retention and deletion at its head appear only as failed fetches.
- `Backoffs.RetryWithBackoff`: the time spent inside the attempts and the accuracy of sleeping are not modelled, nor is floating-point rounding.
- Compression codecs (gzip, lz4, zstd), the Java framing of Snappy, the CRC polynomial and UTF-8 decoding: foreign code.
- The other primitives (strings, compact strings and bytes, arrays, tagged fields): they would repeat the patterns proved for records.
- Request and response messages, their version-dependent layouts and their validation: many easy members.
- Version negotiation, SASL, TLS, SOCKS5 and TCP set-up.
- The controller client, the broker topology table, and the retry decisions around each request. How a broker's answer is obtained is an input of `Leaders`.
- Custom aggregators and deaggregators, whose errors and panics the producer passes on.
- The abort of flush tasks when a producer is dropped.
- Leap-second timestamps, memory capacities, overflow of `usize` sums, log output and error texts.
- Liveness that depends on the broker, the network or the scheduler: the model says what can still happen, not when.
