# webcb: the clipboard store, its wire codec and its streams

webcb copies a stream from one machine to a server and pastes it on another. This
project models the three parts that together make "what was copied is what is
pasted" true, and proves it.

- **The store** (`Store`, `StoreInvariant`, `StoreSafety`). Copies, pastes, the
  collector, expiry, DropAll and crashes as a transition system over one key space:
  LATEST, PENDING and the chunk keys. Safety is proved of every run.
- **The storage code** (`Badger`, `BatchWriter`, `Storage`, `Scan`, `Collection`,
  with `Keys` for the text of keys and `Interference` for what one goroutine may rely
  on). The methods of the storage package as they run: each access to the database is
  one step of that system, and between two accesses a script of steps of the other
  goroutines runs. A second script says which updates, flushes and commits fail.
- **The codec** (`Varint`, `Wire`, `Groups`, `Messages`, `RoundTrips`, `Buffer`,
  `CopyCodec`, `PastCodec`, `Locked`). Encoders that fill real arrays backwards,
  decoders that loop over an index with 64-bit wrap-around, and their laws: the
  Protocol Buffers wire format, sections "Base 128 Varints", "Message Structure",
  "Last One Wins" and "Maps" of the Encoding guide. `WireFormat` holds the format in
  bytes: concrete encodings and refusals with the field numbers of proto/cp.proto.
- **The streams** (`Streams`): the pair that packs writes into frames and unpacks
  frames into reads.
- **The calls** (`Server`, `Client`, `Transport`, `EndToEnd`): both ends of Copy and
  Paste, their messages on the wire, and the theorem from one client's input to
  another client's output.

A method is proved against a function of its input and the old state; the laws are
lemmas about those functions.

What is assumed of the libraries is part of the transition system: a transaction
reads one snapshot and commits atomically or not at all; a write batch publishes only
at a flush (and, once its version is in PENDING, may publish in pieces as long as
LATEST goes last); a sequence number is never issued twice, not even after DropAll
removed the VERSION key; successive ULIDs ascend; an iterator keeps reading its
snapshot after its transaction was committed; the clock never goes back, so that a
record that has expired stays expired. Hash, compressor and cipher are
functions, the last two with an inverse; encoders and decoders deliver their output in
steps and never take back what they have delivered.

Five results say where the code falls short of a law one might expect, each with the
exact condition and a concrete case:

- A nil nested message does not survive a round trip, and nothing else fails to
  (`RoundTrips.CopyRoundTrip`, `RoundTrips.PastRoundTrip`, `RoundTrips.NilInfoIsLost`).
- A map entry is read from its own bytes alone if and only if no length in it reaches
  beyond its end (`Locked.OwnBytesIffInside`, `Locked.EntryMayOverrun`).
- PENDING is exact if and only if, since the last DropAll, no unlock of a locked version
  failed and no crash came while one was locked (`StoreSafety.PendingIsExact`,
  `StoreSafety.LeakHappens`); a version that leaked stays, with its chunks, until
  DropAll (`StoreSafety.LeakIsForever`).
- A copy may take a reader that breaks for one that ends, and report success on what it
  has got. An error that comes with the byte that fills the buffer is lost, and after an
  unexpected end the copy reads on: in both cases it goes by what the next read reports.
  Any other error makes it give up if and only if it is no kind of end
  (`Client.BrokenSource` and, for readers that go on after an error, `Client.FirstError`;
  `Client.TruncatedInputIsTaken`, `Client.LostErrorIsTaken`).
- A partial flush without the lock would lose data (`StoreSafety.FlushNeedsTheLock`); the
  code always locks first.

## Model

| member | source | states |
|---|---|---|
| StoreInvariant.InitOk | storage/badger.go:245-288 | the invariant of the store holds of the empty database |
| StoreInvariant.StepInv | storage/badger.go:134-211 | every step of every copy, paste, collector run, expiry, drop or crash keeps the invariant over writer phases, PENDING, LATEST, chunk keys and all open snapshots |
| StoreInvariant.StepDead | storage/gc.go:96-106 | a version that has ended and is not LATEST stays so under every step |
| StoreInvariant.LatestIsComplete | storage/badger.go:80-121 | in a state that satisfies the invariant the version LATEST names has all its chunks and no others |
| StoreSafety.RunInv | storage/badger.go:134-211 | the invariant holds after every run, of any length and interleaving |
| StoreSafety.LatestAlwaysComplete | storage/badger.go:134-211 | in every reachable state the chunk keys of the version LATEST names are exactly what its copy wrote |
| StoreSafety.CollectorIsSafe | storage/gc.go:46-133 | a key that a collector run may delete, however stale its snapshot, belongs to a version that is not LATEST and is LATEST in no continuation: whatever LATEST that has not expired names, there or later, is never deleted |
| StoreSafety.ReaderSeesOneCopy | storage/badger.go:76-121 | the snapshot of a paste that has read LATEST holds exactly the chunks that copy wrote |
| StoreSafety.PendingIsExact | storage/batch_writer.go:31-107 | in every reachable state PENDING is the copies that locked and have not released and the versions leaked since the last DropAll; so it is exact if and only if the run leaks none; a version is in it while chunks of it are published ahead of LATEST |
| StoreSafety.NoFailureNoLeak | storage/batch_writer.go:67-93 | a run without failed unlocks and crashes leaks nothing |
| StoreSafety.LeakHappens | storage/badger.go:144-148 | a run from the empty store after which no copy is active and PENDING still holds a version |
| StoreSafety.LeakIsForever | storage/gc.go:102-106 | a leaked version stays in PENDING, and its chunks stay untouched, in every continuation without DropAll |
| StoreSafety.UnfinishedCopiesAreInvisible | server/clipboard.go:67-93 | over any run in which no copy ends, whatever is set, locked, flushed, released or collected, what a paste would be given is unchanged |
| StoreSafety.NoEndNoLatest | storage/badger.go:144-148 | a copy that never makes its last flush is never what LATEST names |
| StoreSafety.FlushNeedsTheLock | storage/batch_writer.go:95-107 | a run in which an unlocked partial flush would let the collector break a copy that then becomes LATEST |
| Interference.RelyStep | storage/batch_writer.go:31-107 | a step of another goroutine leaves a copy's record, a paste's snapshot, the holder of the mutex and the collector's deletions as they are, and drops nothing while a copy goes on |
| Interference.GarbageStaysGone | storage/gc.go:114-118 | nobody writes a key again that the collector deleted |
| Interference.NothingElseDeletes | storage/badger.go:55-60 | while a collector run goes on, no other goroutine deletes a chunk |
| Badger.BadgerDB.UnlockOwn | storage/batch_writer.go:67-93 | the update that takes a version out of PENDING, or leaves it there exactly if it was locked and the update fails |
| Badger.BadgerDB.NewUlid | storage/badger.go:231-235 | a drawn ULID is above all ULIDs its copy has used; the draw fails only when there is none left |
| Badger.BadgerDB.NextVersion | storage/badger.go:139-142 | a new version names a copy that did not exist |
| BatchWriter.BatchWriter.LockVersion | storage/batch_writer.go:31-65 | the version is put in PENDING once, with no lost update; a second call does nothing; it fails only if the update does |
| BatchWriter.BatchWriter.Flush | storage/badger.go:206-208 | a flush publishes every entry of the batch or none |
| BatchWriter.BatchWriter.Validate | storage/batch_writer.go:95-109 | makes room for an entry: flushes if and only if the key, the value and 25 bytes would exceed the limit in the batch, after the version was locked; no batch is larger, in bytes, than the limit and its first entry |
| BatchWriter.BatchWriter.PutChunk | storage/badger.go:180-190 | appends one chunk under a fresh ULID, accounted for in exactly one batch |
| BatchWriter.BatchWriter.Finish | storage/badger.go:201-208 | the last flush publishes all chunks and sets LATEST, or neither |
| BatchWriter.BatchWriter.Release | storage/batch_writer.go:67-93 | the copy is released, and its version is in PENDING afterwards if and only if it had locked and the update failed |
| Storage.WriteBatch | storage/badger.go:134-211 | a stream that ends properly is stored as its bytes cut into chunk-size pieces and becomes LATEST with its size, checksum, nonces and expiry, and afterwards LATEST is this copy or one that ended later; any other ending stores no LATEST and reports why; the version is always released and out of PENDING, unless that update fails; the batches are the chunks' entries and LATEST's, none larger in bytes (key, value and 25 each) than the limit and its first entry; the version was locked if and only if there are several |
| Storage.Transfer | storage/badger.go:149-208 | a stream that ends properly ends as LATEST, and with nobody else about any other leaves LATEST as it was |
| Storage.ReadStream | storage/badger.go:150-190 | the read loop stores every full buffer and the shorter last one, and counts the bytes |
| Storage.WriteIndex | storage/badger.go:192-208 | LATEST is set to a record with the fields of this copy, or not touched |
| Storage.ReadBatch | storage/badger.go:71-127 | sends the header and the bytes of the copy that LATEST named at the start, complete and in order; a peer that stops accepting has exactly the first messages, and so has one whose stream ends because a record or a chunk cannot be read; with no LATEST, or one that has expired when the call begins, it never sends anything; not found only when the snapshot shows none by the end |
| Storage.PasteFramesCarry | storage/badger.go:95-121 | after the header, the messages of a paste are full frames, one more with the rest, and the stored checksum if there is one; they carry the stored bytes |
| Storage.SendStream | storage/badger.go:95-121 | seek, loop and flush over the snapshot's keys send exactly the messages of the stored copy, or a proper beginning of them if the peer fails or a value cannot be read |
| Storage.DropAll | storage/badger.go:55-60 | the database is empty and the sequence and the ULIDs go on |
| Storage.LatestIsWhole | storage/badger.go:99-121 | the chunks of the version LATEST names are complete and their ULIDs ascend |
| Keys.FirstPieceIsVersion | storage/gc.go:102-106 | the first piece of a chunk key is the decimal string PENDING holds |
| Keys.PrefixSelectsVersion | storage/badger.go:101-102 | a chunk key has the prefix of a version if and only if it is of that version |
| Keys.ControlKeysStandApart | storage/gc.go:96-99 | no control key has the prefix of any version |
| Keys.ChunkIsNoControl | storage/gc.go:97-99 | no chunk key is LATEST, VERSION or PENDING |
| Keys.ChunksSortByUlid | storage/badger.go:157-170 | the keys of one copy sort, as text, exactly as their ULIDs |
| Keys.KeyTextInjective | storage/badger.go:157-170 | different keys have different texts |
| Keys.SeekFindsPrefix | storage/badger.go:102 | a seek to a prefix skips no key that has it |
| Keys.LessIsLexicographic | storage/badger.go:99-102 | the order of keys is lexicographic: a proper beginning, or the first character that differs, decides |
| Keys.KeyLayout | storage/badger.go:157-170 | a chunk key is the decimal version, a slash, the ULID in 26 characters and "/chunk"; the control keys are LATEST, PENDING and VERSION |
| Keys.DecimalIsTheNumber | storage/badger.go:157 | the decimal string of a version has its value, and no leading zero |
| Keys.Base32IsTheNumber | storage/badger.go:231-235 | the text of a ULID has its value in base 32 |
| Scan.NewIterator | storage/badger.go:99-102 | the keys of a snapshot, each once, in the order of their texts |
| Scan.ScanFindsCopy | storage/badger.go:99-121 | the keys under a version's prefix, in text order, are the chunks its copy wrote in the order it wrote them, whatever else is stored |
| Scan.PrefixEnds | storage/badger.go:102 | where the prefix stops matching it matches no later key |
| Collection.DeletableIsGarbage | storage/gc.go:96-106 | the tests on a key's text hold exactly of chunks whose version is neither pending in the snapshot nor named by a LATEST that has not expired |
| Collection.VisitNext | storage/gc.go:84-125 | each key adds to the deleted set exactly if the test on its text holds |
| Collection.Delete | storage/gc.go:108-124 | a deletion that does not fit commits what there is and goes into a new transaction; nothing is lost or counted twice |
| Collection.Sweep | storage/gc.go:83-133 | the loop deletes distinct garbage keys, counts them, stops at the cap or the timeout, has then deleted exactly the garbage among the keys it visited, and otherwise deletes all garbage |
| Collection.GoneFirst | storage/gc.go:77-86 | what a run that is cut short has deleted comes before the garbage it leaves, in the direction it went |
| Collection.Discard | storage/gc.go:46-133 | of the snapshot's keys exactly the counted ones are gone, all of dead versions, at most the cap and at most one a key visited; none is pending or of an unexpired LATEST, then or now; if neither cap nor timeout cut it short, a chunk is still stored if and only if its version is pending or named by an unexpired LATEST of the snapshot; else what is gone comes first in the direction of the scan; after an error, also of reading the control keys, the count is zero though earlier commits stand |
| Streams.PayloadOfFrames | internal/grpc/writer.go:25-58 | the frames sent for data and a checksum unpack to that data and checksum, for every frame size, and are len/size + 1 chunks |
| Streams.FramesAreFramed | internal/grpc/writer.go:25-58 | len/size frames of exactly the size, one of the remainder, even if it is empty, and the checksum if it is not |
| Streams.AnyWrites | internal/grpc/writer.go:25-58 | any sequence of writes and one flush send the frames of their concatenation |
| Streams.FullAppend | internal/grpc/writer.go:25-48 | the frames do not depend on where one write ends and the next begins |
| Streams.FullSizes | internal/grpc/writer.go:36-43 | every frame but the last has exactly the size of the buffer |
| Streams.PiecesShape | storage/badger.go:149-190 | data is cut into ceil(len/size) pieces, none empty, all but the last full, that concatenate to it |
| Streams.CutIsUnfinished | internal/grpc/reader.go:46-52 | a stream cut off anywhere before its end reads as broken, never as a shorter complete one |
| Streams.Writer.Write | internal/grpc/writer.go:25-48 | sends the full frames of everything written so far and keeps the rest; a failing peer has exactly the frames it took |
| Streams.Writer.Flush | internal/grpc/writer.go:50-58 | sends the rest, even when it is empty, and a checksum that is not empty |
| Streams.SendChunk | internal/grpc/writer.go:25-48 | a write extends the stream sent so far by its data, or leaves a prefix of the complete stream |
| Streams.SendRest | internal/grpc/writer.go:50-58 | the flush completes the stream, exactly when the peer takes all of it |
| Streams.SendMore | internal/grpc/writer.go:25-48 | what a peer has after a failed write is what it has of the whole stream |
| Streams.Receiver.Next | server/clipboard.go:172-187 | chunks are data, a checksum is the end and is kept, an info or error message is a failure |
| Streams.Reader.Read | internal/grpc/reader.go:30-59 | fills the buffer while there is enough ahead; the last read gives the rest at a proper end and nothing at a broken one; it always returns |
| Streams.Reader.Refill | internal/grpc/reader.go:46-57 | the next chunk, empty or not, loses nothing of what is ahead |
| Server.Copy | server/clipboard.go:67-93 | without a header the store is untouched; a proper stream is stored and becomes LATEST, expires after the time to live of its header or after ten minutes if that is zero, unless an operation fails, and only a copy that ends later replaces it; any other stream leaves its version unnamed; without failures the version is out of PENDING |
| Server.Paste | server/clipboard.go:95-117 | refuses exactly the rates above the limit, with the message the code sends, and panics on exactly the negative ones below it, before anything is sent; answers "no data" only when LATEST is not visible, and never serves when there is none or it has expired; otherwise sends the stored copy in frames of the rate, of 1 MiB for rate zero, or a beginning of it |
| Client.TakeData | client/client.go:123-168 | data that comes without an error is taken whole, whatever the sizes of the reads and of the buffer |
| Client.CleanSource | client/client.go:123-168 | a reader that delivers its data and then ends is taken as all of its data |
| Client.DrainedSource | client/client.go:123-168 | a reader that delivers its data and then reports one thing for ever: all of it taken at an end, the whole chunks after a wrapped end or another error, all of it but never an end after an unexpected one |
| Client.FirstError | client/client.go:123-158 | what a copy takes of any reader, at its first error: lost if it comes with the byte that fills the buffer, else reading on after an end inside the buffer or an unexpected end, ending after one that is or wraps an end, giving up after any other |
| Client.BrokenSource | client/client.go:123-158 | for a reader that reports an error, with data or without, and then another for ever: if the first is lost or unexpected, all that was delivered counts as complete if and only if the second is an end; else the copy gives up if and only if the first is no kind of end, and a wrapped end costs the last incomplete chunk |
| Client.TruncatedInputIsTaken | client/client.go:142-155 | two of three bytes, then an unexpected end, then an end: taken for complete |
| Client.LostErrorIsTaken | client/client.go:123-126 | an error of any kind with the byte that fills the buffer, then an end: taken for complete |
| Client.TakeRead | client/client.go:123-168 | one read of the reader is one step of what a copy takes of it |
| Client.Source.ReadAtLeast | client/client.go:123-126 | a full buffer, an end, or an error as the library reports it, for every reader: an error with the byte that fills the buffer is lost, an end inside it becomes an unexpected one |
| Client.Copy | client/client.go:43-192 | for every reader succeeds exactly when the input is taken for complete and the peer takes all messages: the header with the options' time to live, compression and nonces (none without encryption), full chunks of the chunk size and one more that carry the compressed and sealed input, and its hash if asked for; otherwise what was sent is not a complete stream; it counts every byte read |
| Client.PassOn | client/client.go:121-168 | the read loop passes on and hashes exactly what is taken of the input, gives up, or never returns, and tells which |
| Client.SendContent | client/client.go:121-172 | the read loop and the close deliver all the encoders make of what is taken of the input |
| Client.Chain.Write | client/client.go:149-166 | a write passes on what the encoders deliver for it, early or late, or leaves a beginning of the complete stream |
| Client.Chain.Close | client/client.go:128-139 | the encoders deliver the rest of what they make of the whole input, in writes of any size |
| Client.Input.Read | client/client.go:228-262 | the reads of plain or decoded data concatenate to it, start before all input was read, and end at its end; a broken stream or a decoder that refuses is a failure |
| Client.Input.Fill | client/client.go:249-260 | the decoders read on only when they have nothing to deliver, and check their input as a whole at its end |
| Client.Paste | client/client.go:194-305 | each outcome said of the messages: refused with the message of an error, a protocol error for any other first message, success only with a complete stream whose checksum, if the header announces one, is the hash of what was put out; a checksum of another length than 32, or of 32 bytes that is not the hash, is told apart and reported; the output is exactly the decoded content in these cases, and before an error a beginning of what the messages carry |
| Client.Pull | client/client.go:262-293 | everything read goes to the output and to the hash, all of it or a beginning |
| Transport.CopySurvives | proto/cp_vtproto.pb.go:591-663 | the messages of a copy arrive as they were sent |
| Transport.PastSurvives | proto/cp_vtproto.pb.go:411-503 | the messages of a paste arrive as they were sent |
| EndToEnd.CopiedIsPasted | client/client.go:262-302 | for all contents, sizes and options the paste of a stored copy outputs the copied bytes; it announces a checksum if and only if the copy asked for one, which is then the hash of the content and is compared with success; cut off anywhere it is an error and has put out only a beginning of the content |
| EndToEnd.CopiedIsPastedOverTheWire | proto/cp_vtproto.pb.go:2368-2525 | the same with every message encoded and decoded on both ways |
| EndToEnd.DecodeEncode | client/client.go:229-258 | the decoders that the stored header selects undo the encoders of the copy |
| EndToEnd.StoredStays | storage/badger.go:192-208 | whatever others do, what a copy stored stays, and LATEST names it by the same record |
| EndToEnd.CutIsError | client/client.go:262-275 | a paste of the first messages of a stream fails and puts out only a beginning of the content |
| EndToEnd.StillLatest | storage/badger.go:192-208 | a stored copy is LATEST, and visible, as long as no other copy has ended since it began, nothing was dropped and its time has not run out |
| EndToEnd.CopyUp | client/client.go:43-192 | what one client takes of its input is what the server stores and sets as LATEST, to expire after the time to live of the options, or ten minutes for zero, and nothing if the copy breaks off |
| EndToEnd.PasteDown | client/client.go:194-305 | if LATEST names a copy, another client puts out its content or a beginning of it, and all of it when it reports success |
| EndToEnd.CopyThenPaste | client/client.go:43-305 | one client copies, anything happens, another pastes: a copy that broke off stores nothing; a stored copy is LATEST unless another ended, something was dropped or its time ran out; of a copy that is LATEST the paste puts out only a beginning, exactly what was taken of the input whenever it reports success, which it does whenever the server could send everything; with nobody else about and no failure the paste outputs the copy; a reader that ends properly is taken whole |
| Varint.SovIsEncodedLength | proto/cp_vtproto.pb.go:970-972 | the closed form is the number of bytes the encoding loop writes, for every 64-bit value |
| Varint.VarintAtMostTenBytes | proto/cp_vtproto.pb.go:665-675 | a varint has one to ten bytes |
| Varint.PutVarint | proto/cp_vtproto.pb.go:665-675 | writes the varint just before the offset and nothing else |
| Varint.VarintRoundTrip | proto/cp_vtproto.pb.go:2373-2387 | decoding gives the value back and consumes its size, whatever stands before and behind |
| Varint.ParseVarint | proto/cp_vtproto.pb.go:2373-2387 | the loop of shifts and ors computes the groups' value modulo 2^64, and fails at the end of the input or after ten bytes |
| Varint.OrGroup | proto/cp_vtproto.pb.go:2383 | or-ing in a shifted group adds it, modulo 2^64 |
| WireFormat.KnownVarints | proto/cp_vtproto.pb.go:665-675 | concrete varints: least significant group first, high bit on all bytes but the last |
| WireFormat.VarintEnds | proto/cp_vtproto.pb.go:2373-2387 | a varint overflows if and only if ten bytes with the high bit stand there, and ends unexpectedly if and only if fewer do and the buffer ends; no other error |
| WireFormat.KnownLongVarints | proto/cp_vtproto.pb.go:2373-2387 | groups that add nothing are accepted, bits beyond the 64th are lost |
| Wire.LengthIsExact | proto/cp_vtproto.pb.go:2401-2425 | a length prefix is accepted if and only if its end, without wrap-around, is in the buffer |
| Wire.ParseLength | proto/cp_vtproto.pb.go:2401-2425 | the wrapping 64-bit sums decide exactly that |
| Wire.ParseSkip | proto/cp_vtproto.pb.go:2526-2603 | skip terminates, stays inside the buffer, and on success has advanced to group depth zero |
| Wire.ParseUnknown | proto/cp_vtproto.pb.go:2504-2518 | an unknown field is skipped as a whole or refused |
| Wire.MergeLaw | proto/cp_vtproto.pb.go:2368-2525 | for every kind of message that reads its records locally: decoding a and then b into the result is decoding a+b |
| Wire.UnknownStandsAlone | proto/cp_vtproto.pb.go:2504-2518 | the bytes kept of an unknown field are a complete unknown field again |
| Groups.SkipAcceptsFields | proto/cp_vtproto.pb.go:2526-2603 | skip goes over every properly nested field and stops right behind it |
| Groups.SkipAcceptsOnlyFields | proto/cp_vtproto.pb.go:2526-2603 | whatever skip goes over is one properly nested field |
| WireFormat.KnownSkips | proto/cp_vtproto.pb.go:2526-2603 | eight bytes for wire type 1, four for 5; an end group without a start, and the types 6 and 7, are refused with their errors |
| WireFormat.KnownSkipOfNumber | proto/cp_vtproto.pb.go:2543-2553 | skip goes over any varint whole |
| WireFormat.KnownSkipOfBytes | proto/cp_vtproto.pb.go:2556-2575 | skip goes over as many bytes as a length says |
| RoundTrips.CopyRoundTrip | proto/cp_vtproto.pb.go:2368-2525 | a CopyStream decodes from its encoding to itself if and only if its oneof holds no nil message, unknown fields included |
| RoundTrips.NilInfoIsLost | proto/cp_vtproto.pb.go:623-635 | a CopyStream with a nil header decodes to one without any |
| RoundTrips.PastRoundTrip | proto/cp_vtproto.pb.go:1977-2175 | the same for PastStream |
| RoundTrips.CopyInfoRoundTrip | proto/cp_vtproto.pb.go:2176-2367 | a CopyStream_Info decodes from its encoding to itself, negative numbers included |
| RoundTrips.PastInfoRoundTrip | proto/cp_vtproto.pb.go:1682-1874 | the same for PastStream_Info |
| RoundTrips.PastErrorRoundTrip | proto/cp_vtproto.pb.go:1875-1976 | the same for PastStream_Error |
| RoundTrips.CopyMerges | proto/cp_vtproto.pb.go:2398-2503 | decoding an encoding into a message that is not new merges the two, field by field and into a nested Info |
| RoundTrips.PastMerges | proto/cp_vtproto.pb.go:2007-2153 | the same for PastStream, with nested Info and Error |
| RoundTrips.ReceivedCopyIsWhole | proto/cp_vtproto.pb.go:2368-2525 | a CopyStream decoded from any bytes holds no nil message and canonical unknown fields |
| RoundTrips.ReceivedCopyRoundTrips | proto/cp_vtproto.pb.go:2368-2525 | a CopyStream decoded from any bytes encodes and decodes to itself |
| RoundTrips.ReceivedPastIsWhole | proto/cp_vtproto.pb.go:1977-2175 | a PastStream decoded from any bytes holds no nil message and canonical unknown fields |
| RoundTrips.ReceivedPastRoundTrips | proto/cp_vtproto.pb.go:1977-2175 | a PastStream decoded from any bytes encodes and decodes to itself |
| RoundTrips.CopyMergeLaw | proto/cp_vtproto.pb.go:2368-2525 | last one wins: the merge law for CopyStream |
| RoundTrips.PastMergeLaw | proto/cp_vtproto.pb.go:1977-2175 | the merge law for PastStream |
| WireFormat.KnownCopyInfo | proto/cp_vtproto.pb.go:522-571 | fields 1 to 5 of a CopyStream_Info in bytes; zero values are not written; a negative time to live takes ten bytes |
| WireFormat.KnownPastInfo | proto/cp_vtproto.pb.go:292-346 | fields 1 to 5 of a PastStream_Info in bytes |
| WireFormat.KnownPastError | proto/cp_vtproto.pb.go:366-391 | fields 1 and 2 of a PastStream_Error in bytes |
| WireFormat.KnownCopyStream | proto/cp_vtproto.pb.go:591-663 | fields 1 to 3 of a CopyStream in bytes; a oneof is written even when it is empty |
| WireFormat.KnownPastStream | proto/cp_vtproto.pb.go:411-503 | fields 1 to 4 of a PastStream in bytes |
| WireFormat.InfoIntoInfo | proto/cp_vtproto.pb.go:2426-2437 | an Info decoded into a message that holds one: each field of the second that is set wins, the others stay |
| WireFormat.OneofIsReplaced | proto/cp_vtproto.pb.go:2438-2503 | a chunk or checksum replaces whatever the oneof held |
| WireFormat.KnownRefusals | proto/cp_vtproto.pb.go:2388-2400 | a known field with another wire type, an end group and field number zero are refused, each with its error |
| WireFormat.KnownLengths | proto/cp_vtproto.pb.go:2438-2466 | a length beyond the buffer, and one that is negative as an int, are refused, each with its error |
| CopyCodec.Info.SizeVT | proto/cp_vtproto.pb.go:892-920 | the size is exactly the length of the encoding |
| CopyCodec.Info.MarshalToSizedBufferVT | proto/cp_vtproto.pb.go:522-571 | fills the end of the buffer with the encoding and touches nothing else |
| CopyCodec.Info.UnmarshalVT | proto/cp_vtproto.pb.go:2176-2367 | terminates on all bytes with the message or the error that the record-by-record decoder gives |
| CopyCodec.Stream.SizeVT | proto/cp_vtproto.pb.go:922-968 | the size is exactly the length of the encoding, nested message included |
| CopyCodec.Stream.MarshalToSizedBufferVT | proto/cp_vtproto.pb.go:591-663 | fills the end of the buffer with the encoding and touches nothing else |
| CopyCodec.Stream.MarshalVT | proto/cp_vtproto.pb.go:573-584 | the buffer of that size is filled from its first byte to its last |
| CopyCodec.Stream.UnmarshalField | proto/cp_vtproto.pb.go:2372-2518 | one turn of the loop does to the message object what the record does |
| CopyCodec.Stream.UnmarshalInfo | proto/cp_vtproto.pb.go:2426-2437 | an Info field is merged into the Info the oneof holds, else into a new one |
| CopyCodec.Stream.UnmarshalVT | proto/cp_vtproto.pb.go:2368-2525 | terminates on all bytes with the message or the error of the record-by-record decoder |
| PastCodec.Info.UnmarshalVT | proto/cp_vtproto.pb.go:1682-1874 | terminates on all bytes with the message or the error of the record-by-record decoder |
| PastCodec.Info.MarshalToSizedBufferVT | proto/cp_vtproto.pb.go:292-346 | fills the end of the buffer with the encoding and touches nothing else |
| PastCodec.ErrorInfo.UnmarshalVT | proto/cp_vtproto.pb.go:1875-1976 | terminates on all bytes with the message or the error of the record-by-record decoder |
| PastCodec.ErrorInfo.MarshalToSizedBufferVT | proto/cp_vtproto.pb.go:366-391 | fills the end of the buffer with the encoding and touches nothing else |
| PastCodec.Stream.SizeVT | proto/cp_vtproto.pb.go:833-891 | the size is exactly the length of the encoding, nested messages included |
| PastCodec.Stream.MarshalToSizedBufferVT | proto/cp_vtproto.pb.go:411-503 | fills the end of the buffer with the encoding and touches nothing else |
| PastCodec.Stream.MarshalVT | proto/cp_vtproto.pb.go:393-404 | the buffer of that size is filled from its first byte to its last |
| PastCodec.Stream.UnmarshalVT | proto/cp_vtproto.pb.go:1977-2175 | terminates on all bytes with the message or the error of the record-by-record decoder |
| Locked.LockedMergeLaw | proto/cp_vtproto.pb.go:1433-1611 | the merge law for LockedTransaction: later map entries replace earlier ones |
| Locked.LockedRoundTrip | proto/cp_vtproto.pb.go:202-234 | the map comes back, whatever order its entries were written in |
| WireFormat.KnownLocked | proto/cp_vtproto.pb.go:202-234 | a LockedTransaction in bytes: an entry is field 1, its key and value fields 1 and 2 |
| Locked.ReceivedLockedRoundTrips | proto/cp_vtproto.pb.go:1433-1611 | a LockedTransaction decoded from any bytes encodes, in any order, and decodes to itself |
| Locked.SizeIsOrderFree | proto/cp_vtproto.pb.go:748-767 | all enumerations of a map have the same encoded size |
| Locked.OwnBytesIffInside | proto/cp_vtproto.pb.go:1496-1587 | an accepted entry was read from its own bytes alone if and only if no key or value is announced to reach beyond its end |
| Locked.EntryMayOverrun | proto/cp_vtproto.pb.go:1514-1573 | a concrete message whose entry is read beyond its end and whose bytes are used twice |
| Locked.Message.SizeVT | proto/cp_vtproto.pb.go:748-767 | the size is exactly the length of the encoding, in any order of the map |
| Locked.Message.MarshalToSizedBufferVT | proto/cp_vtproto.pb.go:202-234 | fills the end of the buffer with the entries and touches nothing else |
| Locked.Message.MarshalVT | proto/cp_vtproto.pb.go:184-195 | sizing and writing may visit the map in different orders and still fill the buffer exactly |
| Locked.Message.ParseEntry | proto/cp_vtproto.pb.go:1496-1587 | the inner loop terminates and reads the entry's key and value as the code does, overrun included |
| Locked.Message.UnmarshalVT | proto/cp_vtproto.pb.go:1433-1611 | terminates on all bytes with the map or the error of the record-by-record decoder |

## Left out

- Badger, ULID entropy, zstd, sio, scrypt, HKDF and SHA-256: only the contracts named above; a password is a parameter.
- The bytes of the records under LATEST and PENDING: the storage package marshals them with another library, so they are values here, and the length of the LATEST record is a parameter of `Storage.WriteBatch`.
- Codecs of Clipboard, ServerStatus and PasteOption: they repeat the field shapes proved here.
- Contents of a message after its decoder returned an error: no caller looks at them. Nil receivers of the generated methods are left out too.
- The decoding loop of a varint stands once, in `Varint.ParseVarint`, where the generated code repeats it inline; likewise the code around a length prefix.
- Slices that a decoded or copied message shares with a buffer: byte slices are values, as the code copies them where it keeps them.
- Storage.DropAll: the write lock that makes it wait for copies, pastes and collector runs is its precondition.
- Storage.ReadBatch: an error of the transaction, of the LATEST record or of a chunk's value is one outcome; which messages went out before it is stated.
- Badger.BadgerDB.Interfere: a crash ends the goroutine it would interrupt and is a step of the transition system only; the mutex around PENDING is handed over by letting its holder finish.
- Collection.Sweep: the context's deadline is a number of keys after which it is done.
- Server.Copy: a first message that is no header makes the program dereference a nil error while logging; the model says that the store is unchanged and ends the call.
- Client.Chain.Write: encoders are bound to deliver only output that later input cannot change, and nothing before their first input.
- Client.Paste: decoders are bound to deliver only what belongs to the content their whole input stands for; writing to the output does not fail. Errors of reading the password or setting up a cipher are left out.
- Client.Copy: a chunk size of zero or less, which the options never give, would loop or panic and is excluded; a copy that would never return is an outcome; the answer of the server is the outcome of `Server.Copy`.
- EndToEnd.CopyThenPaste: hands the messages over as values; `Transport.CopySurvives` and `Transport.PastSurvives` say that encoding and decoding changes none, as long as each fits in a slice.
- Streams.Writer.Write: the writer after a failed send, and a second flush, are not described; callers stop after either.
- Value-log compaction, the ticker that starts the collector, logging, transfer-rate statistics, the command line, TLS and the gRPC connections.
