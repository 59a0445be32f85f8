# A verified model of shiguredo HTTP/3

This project models the parts of the library that are protocols rather than parsers alone, and
proves what each of them is for.

**QPACK (RFC 9204).** An encoder and a decoder keep copies of an evicting table in step over streams
that have no order among each other. `QpackSystem` is that as a state machine: insert and emit an
instruction, encode and track a section, deliver any part of the encoder stream, decode or retry a
section, report insertions, reset a stream, deliver any part of the decoder stream. Everything on the
wire is octets, so the results reach from field lists to octets and back. `QpackSafety` has the main
results: whatever the interleaving, a section is blocked or decodes to exactly what was encoded, no
error is ever raised, the replicas never diverge, and a blocked section is decoded at the first retry
after its count is reached. `QpackRetry` is about whole passes of retries, and `QpackGuard` proves that
the guard on sending is exact. `QpackContents` says what the tables hold and, with `KnownCount`, what the
encoder has learnt, from the steps of a run alone; `SectionOctets` says what a section is octet by octet. `TableModel` is the table as an append-only log with a window;
`DynamicTable`, `DynamicEncoder`, `DynamicDecoder` and `QpackStreams` are the mutable objects, each
proved to do what the log model says.

**Huffman coding (RFC 7541, Section 5.2 and Appendix B).** `Huffman` proves that decoding and encoding
are inverse for every prefix-free, complete code. `HuffmanTable` and `RfcHuffman` show that the
library's table is one, by a code tree whose subtrees halve the range of their left-justified code
words. `HuffmanAccumulator` proves the loops with their 64-bit accumulator against it.

**Frames, settings and variable-length integers (RFC 9114, Section 7; RFC 9000, Section 16).**
`Frames`, `Settings` and `VarInts` show a self-delimiting encoding: exact lengths, round trips, and no
strict prefix taken for a frame. `FrameCodec` has the procedures that write into a buffer.

**WebTransport.** `WtConnection` is the connection with its sessions as a state machine over any
sequence of inputs. `WtLifecycle` and `WtEndings` prove the order of session events and how a session
ends, `WtTold` what the application is told of each input, `WtAccounting`, `WtDelivery` and
`WtConservation` that flow control neither loses nor invents octets, `WtCredit`, `WtCreditRuns` and
`WtOneChunk` what becomes of stream credit, `WtOrder`, `WtOrderRuns`, `WtOrderExact`, `WtUnopened`
and `WtReread` when the events of a stream are in order, `WtSession` that no early stream is lost.
`WtEarlyStream` and `WtTransparency` follow one stream from its first octet through the three places where it may have to
wait, and `WtStreamView`, `WtBystanders`, `WtInterleaving` and `WtUniStream` put that stream into a
connection that handles anything else in between; `WtForeign` is about octets that are no such stream;
`WtEarliestRun` and `WtEarliestUni` give such runs.

## Premises

- The decoder's maximum table capacity is the same number on both sides, and the encoder sets the
  capacity once, before its first insertion (`src/connection/mod.rs:1322-1346`). Shrinking it while
  entries are protected leaves a table above its capacity; the class `DynamicTable` models that, the
  runs of `QpackSystem` do not use it.
- A section is sent only when its Required Insert Count is at most the Known Received Count plus the
  maximum number of entries. Eviction looks only at unacknowledged sections
  (`src/qpack/dynamic_table.rs:271-287`), so this is up to the caller, who can test it before sending.
  `QpackGuard.UnguardedSendFails` shows a failure without it, and `QpackGuard.GuardIsExact` and
  `GuardIsExactOverRuns` show that it asks for no more and no less than is needed.
- A section is within the decoder's field section size limit.
- QUIC: no octets of a stream come after its end or its reset, a stream is reset at most once, and the
  octets of one stream arrive in order. `WtConservation.LawfulRun` says this of a run, and
  `WtCreditRuns.TypedRun` that a stream identifier tells direction and initiator. A stream that was
  refused, or whose session has ended, may be read again as a new one, and the runs allow for it.
- A client sends a CONNECT request on a stream identifier that was never used. (A server refuses the
  stream of a closed session by itself, before it reads a request from it; `WtConnection.Connect` and
  `RegisterConnect` are these two steps.)
- What a decoded section says is accepted by the checks that follow (`src/connection/mod.rs:1240-1258`).
  A pass of retries that stops because one is refused loses the entries it has not reached;
  `QpackRetry.StoppedPass` says what is left.

## Where the code and its documents differ

- Section 2.1.4 of RFC 9204 lets a Section Acknowledgment raise the Known Received Count. The encoder
  does that, the decoder-stream receiver keeps a count of its own that only increments move
  (`src/qpack/decoder_stream.rs:199-221`); the model keeps both.
- The flag for never-indexed literals is written and not restored by decoding
  (`src/qpack/decoder.rs:32-34`), so round trips compare names and values; `SectionOctets` proves the flag
  on the octets that are written.
- A unidirectional WebTransport stream that ends in the chunk that completes its type is reported as
  ended at once (`src/connection/mod.rs:977-984`), without the steps of `handle_wt_uni_stream_fin`: its
  place is never given back, and in a pending session its end is reported before its opening.
  `WtOneChunk` has the two runs. `WtCreditRuns.PlacesComeBack` says exactly when the places come back.
- A stream that waits for a pending session is no longer held once GOAWAY drains that session
  (`src/connection/mod.rs:1507-1532`), or once the session has ended, since it stays registered
  (`src/connection/wt_session.rs:443-471`). Its octets and its end are then reported although it was
  never opened, and so is its reset: `WtUnopened` has the runs.
- A stream that was rejected (`src/connection/wt_stream.rs:286-415`, `src/connection/wt_stream.rs:578-726`),
  or whose session has ended (`src/connection/wt_session.rs:443-471`), is forgotten, and its next octets
  are read as the header of a new stream (`src/connection/mod.rs:640-783`). It may so be opened after it
  was rejected, or twice: `WtReread.RejectedIsOpened` is a run.
- `WtOrderExact.OrderIsExact` says exactly when the events of a stream are in order, by the branch that
  each step takes and by what was reported of the stream so far. `OrderWhenReadOnce` is the condition
  for a stream that is never read again; it is a test on the state alone.
- For the type 0x41 the frame length is computed, but writing such a frame is refused
  (`src/frame/encoder.rs:38-103`); `Frames.EncodeFrame` follows the code.

## Model

| member | source | states |
|---|---|---|
| `PrefixInteger.RoundTrip` | src/qpack/integer.rs:83-130 | Whatever follows, reading a written prefix integer gives back the value and its exact length, for every prefix width and every value up to 2^62 - 1; every larger 64-bit value is refused |
| `PrefixInteger.Stable` | src/qpack/integer.rs:83-130 | More octets never change an answer, value or error, that was already reached |
| `PrefixInteger.IntegerLayout` | src/qpack/integer.rs:16-55 | A value below the largest prefix is the prefix; any other saturates it, and the seven-bit groups behind it, all but the last marked by their high bit, add up to the rest |
| `PrefixInteger.AnyInteger` | src/qpack/integer.rs:83-130 | Any run of groups, in the shortest form or not, is read for what it adds up to; a tenth group, or a value above 2^62 - 1, is refused |
| `PrefixInteger.GroupsWait` | src/qpack/integer.rs:83-130 | A reader asks for more octets exactly while every group so far is marked as continued and more may follow |
| `PrefixInteger.EncodeAt` | src/qpack/integer.rs:16-55 | The writing loop puts exactly the encoding at `start` and touches nothing else, or reports that it does not fit |
| `PrefixInteger.DecodeLoop` | src/qpack/integer.rs:83-130 | The shifting loop with its overflow guard computes what the recursive reading of the groups denotes, errors included |
| `PrefixInteger.EncodedLen` | src/qpack/encoder.rs:30-49 | The length computed without writing is the length of the encoding, whatever the flag bits |
| `SizeEstimate.IntLenMonotone` | src/qpack/encoder.rs:30-49 | A larger value never has a shorter encoding |
| `SizeEstimate.EstimateSuffices` | src/qpack/encoder.rs:67-91 | A static-only section is never longer than the estimate, Huffman on or off, and exactly as long with Huffman off |
| `SizeEstimate.EstimateEncodedSize` | src/qpack/encoder.rs:53-91 | The estimating loop returns the sum over the headers that `EstimateSuffices` is about |
| `StringLiteral.StringRoundTrip` | src/qpack/wire.rs:14-108 | Every string is read back as it was, with its exact length, with and without Huffman coding and for every prefix width |
| `StringLiteral.StringStable` | src/qpack/wire.rs:65-108 | More octets never change the outcome of reading a string once it is not "too short" |
| `StringLiteral.EncodeStringAt` | src/qpack/wire.rs:14-42 | Writes exactly the string literal, choosing Huffman coding only when it is shorter, or reports that it does not fit |
| `StringLiteral.EncodeStringToVec` | src/qpack/encoder_stream.rs:365-391 | Appends exactly the string literal to the buffer |
| `StringLiteral.ReadString` | src/qpack/encoder_stream.rs:393-430 | The reader of length, padding and payload computes what the literal denotes, errors included |
| `Huffman.Inverse` | src/qpack/huffman.rs:1060-1167 | For every table that is prefix-free and complete: octets decode to a string if and only if they are the encoding of that string |
| `Huffman.RestIsShort` | src/qpack/huffman.rs:1099-1167 | When no code word starts the unread bits, fewer than 30 of them are left: this bounds the accumulator |
| `HuffmanCode.PaddingStartsNothing` | src/qpack/huffman.rs:1144-1167 | At most seven one-bits never start a code word |
| `RfcHuffman.PrefixFree` | src/qpack/huffman.rs:13-1046 | No bit string starts with two code words of the table |
| `RfcHuffman.Complete` | src/qpack/huffman.rs:13-1046 | Thirty bits always start with a code word of the table |
| `RfcHuffman.TableIsGood` | src/qpack/huffman.rs:13-1046 | The 257 entries are left-justified, 5 to 30 bits long, prefix-free and complete, and end-of-string is thirty ones |
| `HuffmanAccumulator.SumLengths` | src/qpack/huffman.rs:1049-1057 | The sum of code lengths, rounded up, is the length of the encoding |
| `HuffmanAccumulator.EncodeAt` | src/qpack/huffman.rs:1060-1096 | The 64-bit accumulator loop writes exactly the encoding at `start`, padded with ones, or refuses and leaves the buffer alone |
| `HuffmanAccumulator.DecodeLoop` | src/qpack/huffman.rs:1099-1167 | The accumulator loop decodes what the bit strings denote; the accumulator never holds more than 37 bits, so no shift loses any |
| `HuffmanAccumulator.Drain` | src/qpack/huffman.rs:1106-1141 | The greedy scan emits exactly the symbols that start the unread bits and stops at the first place where none does |
| `HuffmanAccumulator.CheckPadding` | src/qpack/huffman.rs:1144-1167 | Accepts what is left if and only if it is at most seven bits, all ones |
| `StaticTable.LibraryIsUsable` | src/qpack/table.rs:6-222 | The 99 static entries and the Huffman table meet everything that the other results ask of a codebook |
| `Fields.Search` | src/qpack/table.rs:232-247 | The search loop finds the first exact match if there is one, and otherwise the first entry of that name |
| `TableModel.FindEntryFinds` | src/qpack/dynamic_table.rs:250-268 | An exact match is the newest live equal entry, and there is none only if no live entry is equal; likewise for the name when there is no exact match |
| `TableModel.LookupsAgree` | src/qpack/dynamic_table.rs:203-248 | Absolute, encoder-relative, base-relative and post-base lookup agree on every index, and return the log entry exactly while it is live |
| `TableModel.LiveCountBound` | src/qpack/dynamic_table.rs:46-48 | A table within its capacity holds at most capacity / 32 entries |
| `TableModel.EvictBlockedOrFits` | src/qpack/dynamic_table.rs:271-287 | Eviction is blocked before the first removal or never, and unless blocked it makes room for anything that fits the capacity |
| `TableModel.EvictIsLeast` | src/qpack/dynamic_table.rs:271-287 | Eviction stops at the first place where the room suffices, the oldest entry is protected or nothing is left |
| `TableModel.InsertAllOrNothing` | src/qpack/dynamic_table.rs:167-190 | A refused insertion leaves the table as it was; it is refused exactly when the entry exceeds the capacity or room would cost a protected entry |
| `TableModel.InsertAppends` | src/qpack/dynamic_table.rs:167-190 | A successful insertion appends the field to the log under the next index, keeps the size within the capacity, and drops nothing below the limit |
| `TableModel.InsertIgnoresLimit` | src/qpack/dynamic_table.rs:167-190 | An insertion that a protecting table accepts does exactly the same to a table that protects nothing |
| `TableModel.DuplicateIs` | src/qpack/dynamic_table.rs:195-200 | A duplicate appends the entry that the relative index names, exactly when that is live and fits; otherwise the table stays as it was |
| `TableModel.SetCapacityIs` | src/qpack/dynamic_table.rs:153-164 | A new capacity drops the oldest entries, no more than it has to; the table is left too large exactly when its oldest entry is protected and it was too large |
| `DynamicTable.DynamicTable.Insert` | src/qpack/dynamic_table.rs:167-190 | The deque, size and counters after the call are those of the log model, for both outcomes |
| `DynamicTable.DynamicTable.Duplicate` | src/qpack/dynamic_table.rs:195-200 | The same, for the entry at a relative index; the value is taken before anything is evicted |
| `DynamicTable.DynamicTable.EvictToFit` | src/qpack/dynamic_table.rs:271-287 | The popping loop drops exactly what the log model drops |
| `DynamicTable.DynamicTable.SetCapacity` | src/qpack/dynamic_table.rs:153-164 | Drops the oldest entries that do not fit and that are not protected |
| `DynamicTable.DynamicTable.FindEntry` | src/qpack/dynamic_table.rs:250-268 | The loop over the deque finds what the log model finds |
| `InsertCount.WindowValueUnique` | src/qpack/decoder.rs:351-384 | Exactly one value in (T - MaxEntries, T + MaxEntries] is congruent to enc - 1 modulo 2 * MaxEntries |
| `InsertCount.DecodeIsWindowValue` | src/qpack/decoder.rs:351-384 | For 0 < enc <= 2 * MaxEntries the wrapping arithmetic returns that value, and an error exactly when it is not positive |
| `InsertCount.CountRoundTrip` | src/qpack/encoder.rs:390-407 | A count survives encoding and reconstruction if and only if it lies in the receiver's window |
| `InsertCount.CountStable` | src/qpack/decoder.rs:288-306 | A reconstructed count is reconstructed as the same at a later insert count if and only if the later window still has it |
| `FieldLines.LineRoundTrip` | src/qpack/decoder.rs:387-597 | Each of the representations is read as exactly the field it denotes at the reader's table, or as the error it deserves, and nothing more than the line is consumed |
| `FieldLines.ReferencesMean` | src/qpack/decoder.rs:420-576 | A relative index counts down from the base and a post-base index up from it; either yields the entry of the log at that place exactly when the entry is live and below the Required Insert Count |
| `FieldLines.PartialLine` | src/qpack/decoder.rs:387-597 | A strict prefix of a line is always taken as too short |
| `FieldSection.BaseRoundTrip` | src/qpack/decoder.rs:309-330 | Every base is read back from its sign and distance, on whichever side of the count it lies |
| `FieldSection.BaseBelowZero` | src/qpack/decoder.rs:317-323 | A base below 0 is refused |
| `FieldSection.AnySectionDecodes` | src/qpack/decoder.rs:288-348 | A section with any base and any representations, post-base ones included, is read as what its lines mean at that base, up to the first line that means nothing, whose error is reported; a list above the size limit is refused |
| `FieldSection.SectionFits` | src/qpack/decoder.rs:332-347 | Whatever octets arrive, no list above the size limit is delivered |
| `FieldSection.CutOffLine` | src/qpack/decoder.rs:332-347 | A section whose last line is cut off is refused |
| `FieldSection.RequiredCountIsLive` | src/qpack/encoder.rs:341-359 | The Required Insert Count names a live entry that some header matches, and covers all of them |
| `FieldSection.StaticSectionDecodes` | src/qpack/encoder.rs:314-338 | A section without dynamic references is read back by every reader, whatever its table |
| `FieldSection.DynamicSectionDecodes` | src/qpack/encoder.rs:341-388 | At a reader with the count in its window, a section is blocked while the count is not reached and otherwise read as exactly the headers written |
| `SectionOctets.LineStart` | src/qpack/encoder.rs:486-605 | The first octet of each representation has the bit pattern of the standard, the never-indexed bit included |
| `SectionOctets.StaticSectionSays` | src/qpack/encoder.rs:410-433 | Octet by octet, line by line: each literal of a static-only section has its N bit set exactly when the header asks for it, and an index or a name reference is used exactly when the static table has the field or the name |
| `SectionOctets.DynamicSectionSays` | src/qpack/encoder.rs:436-481 | The same of a section with dynamic references, at every table: the preference is live entry, static entry, live name, static name, literal name |
| `SectionOctets.RequiredCountIsLargest` | src/qpack/encoder.rs:341-359 | The Required Insert Count is one more than the newest entry that any header matches, by field or else by name, and no larger |
| `SectionOctets.UsesDynamicExactly` | src/qpack/encoder.rs:279-306 | A section gets a count above 0 exactly when the table is enabled, one more stream may block, and some header has a live match |
| `SectionOctets.PostBaseExample` | src/qpack/decoder.rs:315-320 | The section 03 81 10 11 of Appendix B.2 of RFC 9204 decodes to the two entries of the table, in order |
| `SectionOctets.RelativeExample` | src/qpack/decoder.rs:420-459 | The section 05 00 80 c1 81 of Appendix B.4 decodes to the newest entry, a static field and the entry before the newest |
| `DynamicEncoder.DynamicEncoder.Encode` | src/qpack/encoder.rs:279-306 | Writes exactly the section that the encoder model names and remembers its count, or reports that it does not fit |
| `DynamicEncoder.DynamicEncoder.EncodeWithDynamic` | src/qpack/encoder.rs:341-388 | The two passes write prefix, base and one line for each header as the model says |
| `DynamicEncoder.DynamicEncoder.ChooseLine` | src/qpack/encoder.rs:436-481 | The choice among static, dynamic, name-reference and literal forms is the model's |
| `DynamicEncoder.DynamicEncoder.TrackSection` | src/qpack/encoder.rs:203-213 | The new state is the old one with the count queued last for its stream and the eviction limit raised to the maximum outstanding count |
| `DynamicEncoder.DynamicEncoder.AckSection` | src/qpack/encoder.rs:224-241 | Takes the oldest count of the stream, raises the Known Received Count to it, and refuses a stream with none outstanding |
| `DynamicEncoder.DynamicEncoder.CancelStream` | src/qpack/encoder.rs:246-249 | Forgets the stream and lowers the eviction limit accordingly |
| `DynamicEncoder.DynamicEncoder.UpdateEvictionLimit` | src/qpack/encoder.rs:260-269 | The loops leave the limit at the maximum outstanding count, or 0 |
| `DynamicDecoder.DynamicDecoder.Decode` | src/qpack/decoder.rs:288-348 | The decoding loop returns what the section denotes at the table: blocked, an error, or the field list within the size limit |
| `DynamicDecoder.DynamicDecoder.ReadLine` | src/qpack/decoder.rs:387-417 | The dispatch on the leading bits and the five readers return what the line denotes |
| `EncoderModel.DoSound` | src/qpack/encoder.rs:191-306 | Every operation keeps: size within capacity, limit equal to the maximum outstanding count, outstanding counts live, streams with outstanding sections within the peer's limit, Known Received Count within the insert count |
| `EncoderModel.RunSound` | src/qpack/encoder.rs:279-306 | The same over every run, so the streams with unacknowledged sections never outnumber what the peer allows |
| `EncoderModel.ReferencesSurvive` | src/qpack/encoder.rs:203-269 | As long as a section of a stream stays unacknowledged, no run of operations evicts anything: every entry it may refer to is still live and the same |
| `EncoderModel.OutstandingStopsEviction` | src/qpack/dynamic_table.rs:271-287 | With a section outstanding, the oldest entry lies below the eviction limit |
| `KnownCount.AckKeepsBooks` | src/qpack/encoder.rs:224-241 | An acknowledgment is accepted exactly when more sections than acknowledgments are on record for its stream, settles the oldest of them, and raises the Known Received Count to its count if that is larger |
| `KnownCount.DrainIsExact` | src/connection/mod.rs:1284-1312 | Any octets on the decoder stream: the reports are obeyed in order up to the first that the history of sections and reports does not allow, and otherwise up to the last complete one; the state is what that history says |
| `EncoderInstructions.InstructionRoundTrip` | src/qpack/encoder_stream.rs:83-151 | Every instruction is read back as it was written, with its exact length, whatever follows |
| `EncoderInstructions.InstructionStable` | src/qpack/encoder_stream.rs:214-354 | Once an instruction is complete or malformed, more octets change nothing |
| `EncoderInstructions.PartialInstruction` | src/qpack/encoder_stream.rs:214-354 | A strict prefix of an instruction is always taken as incomplete |
| `EncoderInstructions.InstructionStart` | src/qpack/encoder_stream.rs:83-151 | The first octet of each instruction has the bit pattern of the standard |
| `EncoderInstructions.NamesIsDenotes` | src/qpack/encoder_stream.rs:266-354 | The receiver adds exactly the field that the sender named: static indices count from 0, relative ones from the newest entry back, and a duplicate is the entry itself |
| `EncoderInstructions.ApplyIs` | src/qpack/encoder_stream.rs:246-354 | An insertion is accepted exactly when it names a field that fits the capacity, which then is the newest entry; a capacity exactly up to the limit |
| `EncoderInstructions.ProcessIs` | src/qpack/encoder_stream.rs:214-354 | A receiver waits only while the instruction may still be completed; a refused one leaves the buffer exactly when the table was tried |
| `EncoderInstructions.DrainIsExact` | src/connection/mod.rs:1187-1199 | Any octets on the encoder stream: the instructions are applied in order up to the first that the table refuses, and otherwise up to the last complete one |
| `EncoderInstructions.AnyFragmentation` | src/qpack/encoder_stream.rs:205-244 | Draining after each of any number of chunks gives the instructions, the table, the rest and the error of one single delivery |
| `EncoderInstructions.DrainsWhatArrived` | src/qpack/encoder_stream.rs:214-354 | Of any part of a stream of acceptable instructions the receiver applies those that are complete and keeps the rest, without error |
| `QpackStreams.EncoderStream.EncodeInsertWithNameRef` | src/qpack/encoder_stream.rs:101-120 | Appends exactly the instruction |
| `QpackStreams.EncoderStream.EncodeInsertWithLiteralName` | src/qpack/encoder_stream.rs:123-142 | Appends exactly the instruction |
| `QpackStreams.EncoderStream.EncodeDuplicate` | src/qpack/encoder_stream.rs:145-151 | Appends exactly the instruction |
| `QpackStreams.EncoderStream.EncodeSetCapacity` | src/qpack/encoder_stream.rs:83-98 | Appends exactly the instruction, or refuses a capacity above the peer's maximum |
| `QpackStreams.EncoderStreamReceiver.Process` | src/qpack/encoder_stream.rs:214-243 | One step takes one complete instruction off the buffer and applies it to the table, or leaves both alone |
| `QpackStreams.ProcessEncoderStream` | src/connection/mod.rs:1187-1199 | The draining loop ends in the state of the drain that `AnyFragmentation` is about |
| `DecoderInstructions.ReportRoundTrip` | src/qpack/decoder_stream.rs:66-82 | Every decoder instruction is read back as it was written |
| `DecoderInstructions.PartialReport` | src/qpack/decoder_stream.rs:150-176 | A strict prefix of a decoder instruction is always taken as incomplete |
| `DecoderInstructions.ReportStart` | src/qpack/decoder_stream.rs:66-82 | The first octet of each decoder instruction has the bit pattern of the standard |
| `DecoderInstructions.SplitAnywhere` | src/qpack/decoder_stream.rs:136-176 | Splitting the decoder stream anywhere changes neither the encoder, nor the count, nor the rest, nor the error |
| `QpackStreams.DecoderStreamReceiver.Process` | src/qpack/decoder_stream.rs:150-221 | One step takes one complete instruction off the buffer; an increment of zero or beyond the insert count is an error |
| `QpackStreams.ProcessDecoderStream` | src/connection/mod.rs:1284-1312 | The loop acknowledges, cancels and raises the Known Received Count as the drain of the model does |
| `QpackReplica.ReplicaInsert` | src/qpack/encoder_stream.rs:266-354 | An instruction made from a successful insertion makes the same entry at a decoder that has applied the ones before it, even when it evicts the entry that it refers to |
| `QpackReplica.ReplicaDeliver` | src/connection/mod.rs:1187-1199 | Whatever part of the encoder stream arrives next, the decoder moves on to a later state of the encoder's table, without error |
| `QpackSteps.InsertInv` | src/qpack/encoder.rs:624-640 | An insertion and its instruction keep the invariant of the two-party system |
| `QpackSteps.SendInv` | src/connection/mod.rs:2056-2074 | Encoding and tracking a section keeps it |
| `QpackSteps.DeliverSectionInv` | src/connection/mod.rs:1622-1732 | Decoding a section, in the first place or as a retry, keeps it |
| `QpackReports.DeliverReportsInv` | src/connection/mod.rs:1284-1312 | Acknowledgments, cancellations and increments keep it: each acknowledgment meets the oldest outstanding section of its stream |
| `QpackReports.ResetInv` | src/connection/mod.rs:2347-2422 | Resetting a request stream and cancelling it keeps it |
| `QpackSteps.RoomToBlock` | src/connection/mod.rs:1640-1670 | The decoder never has to block more streams than it allowed |
| `QpackSafety.EndToEnd` | src/qpack/encoder.rs:279-481 | In every interleaving of encoder stream, decoder stream and request streams no error is raised on either side, and what each stream has delivered is a prefix of the field lists sent on it |
| `QpackSafety.NextSectionIsExact` | src/qpack/decoder.rs:288-597 | At any moment the next section of a live stream is either blocked on insertions that have not arrived or decodes to exactly the list sent next |
| `QpackSafety.WindowIsEarned` | src/qpack/encoder.rs:341-359 | The count of every section in flight on a live stream, whatever stands in front of it, lies in the decoder's window and names a live entry of the encoder, whatever part of the encoder stream the decoder has read |
| `QpackSafety.RetrySucceeds` | src/connection/mod.rs:1205-1281 | A blocked stream waits for the count that its section still decodes to, and as soon as that count is reached the section decodes to the list sent next: it is never blocked again |
| `QpackSafety.NothingBlocksWhenCaughtUp` | src/qpack/decoder.rs:288-306 | With the encoder stream read to the end, every waiting section decodes |
| `QpackSafety.ReplicasNeverDiverge` | src/qpack/encoder_stream.rs:214-354 | At every moment the decoder's table is empty or is the encoder's table of some earlier moment of the run |
| `QpackSafety.CaughtUp` | src/qpack/encoder_stream.rs:214-354 | With the encoder stream read to the end, the two tables are equal, protection aside |
| `QpackContents.TablesHoldWhatWasInserted` | src/qpack/encoder_stream.rs:266-354 | In every run the encoder's log is exactly the fields that were inserted, by whatever kind of instruction they were named, and the decoder's log is a prefix of it, all of it once the stream is read |
| `QpackContents.KnownCountIsExact` | src/qpack/encoder.rs:191-249 | In every run the Known Received Count is the largest of the sum of the increments read and the counts of the sections whose acknowledgments were read, and the outstanding sections are those sent and neither acknowledged nor cancelled |
| `QpackSafety.BoundsHold` | src/connection/mod.rs:1284-1312 | Blocked streams never outnumber streams with unacknowledged sections, nor these the decoder's limit; Known Received Count <= decoder's insert count <= encoder's insert count |
| `QpackSafety.KnownCountMonotone` | src/qpack/encoder.rs:191-198 | No step lowers the Known Received Count |
| `QpackSafety.Settled` | src/qpack/encoder.rs:224-269 | A live stream with nothing in flight has delivered everything, and once the decoder stream is drained the encoder protects nothing for it |
| `QpackSafety.WindowIsNeeded` | src/qpack/encoder.rs:390-407 | A decoder reads a section's count as what was written if and only if it lies in the window of its own insert count; `QpackGuard` says what a sender can make of that |
| `QpackGuard.UnguardedSendFails` | src/qpack/dynamic_table.rs:271-287 | Without the guard on sending the promise fails: eviction ignores the Known Received Count, and with room for one entry the field `a` without a value, inserted twice, gives a section that a decoder rejects instead of blocking |
| `QpackGuard.GuardIsExact` | src/qpack/encoder.rs:341-407 | A section's count is at most the Known Received Count plus the maximum number of entries if and only if every decoder behind the encoder, with at least the insertions known to have arrived, reads the section as it was meant or blocks on it |
| `QpackGuard.GuardIsNeeded` | src/qpack/encoder.rs:390-407 | When the guard fails, no decoder with just the known insertions reads the section as it was meant |
| `QpackGuard.GuardIsExactOverRuns` | src/qpack/dynamic_table.rs:271-287 | The same at any moment of any run, the decoders being those that the run allows for: tables the encoder had, with the insertions known to have arrived |
| `QpackGuard.DecoderIsImaginable` | src/qpack/encoder_stream.rs:214-354 | The decoder of the run is always one of them |
| `QpackRetry.Unblockable` | src/connection/mod.rs:1205-1225 | The loop over the ordered set picks exactly the streams whose count is reached |
| `QpackRetry.RetryAll` | src/connection/mod.rs:1227-1253 | Retrying them in ascending order is always possible, each retry delivers exactly one more list, and the rest stay blocked |
| `QpackRetry.HeadDecodes` | src/connection/mod.rs:1227-1253 | After any part of a pass, with whatever further sections the retried streams delivered in between, the next entry can be retried and decodes |
| `QpackRetry.WholePass` | src/connection/mod.rs:1205-1281 | After the pass over exactly the entries that `Unblockable` picks, further sections of each retried stream decoded in between, every stream that waited for a reached count has delivered something, the others wait as before, and no stream waits for a reached count |
| `QpackRetry.StoppedPass` | src/connection/mod.rs:1222-1258 | A pass that stops early is complete if and only if it has reached all picked entries; each entry not reached leaves its stream blocked on a reached count and listed no more |
| `VarInts.RoundTrip` | src/varint.rs:202-269 | Every 62-bit value is read back with its length, whatever follows |
| `VarInts.ShortestForm` | src/varint.rs:98-110 | No encoding of a value is shorter than the one that is written |
| `VarInts.ReadsAs` | src/varint.rs:232-269 | Any octets, in the shortest form or not, are read as the big-endian number behind the two bits that announce 1, 2, 4 or 8 octets |
| `VarInts.EncodeAt` | src/varint.rs:202-230 | Writes exactly the encoding or leaves the buffer alone |
| `Settings.WireInverse` | src/settings.rs:220-306 | What is read from a pair is written back as that pair; a pair is rejected exactly when its identifier is HTTP/2-only or a boolean setting is above 1 |
| `Settings.SettingsPayload.Add` | src/frame/mod.rs:295-304 | Refuses an identifier that is there already, and otherwise appends |
| `Frames.SettingsRoundTrip` | src/frame/decoder.rs:164-185 | Genuine settings without duplicates are read back in order |
| `Frames.FrameRoundTrip` | src/frame/decoder.rs:122-161 | A frame that can be written has exactly the computed length, and is read back as it was, whatever follows |
| `Frames.PartialFrame` | src/frame/decoder.rs:90-161 | A strict prefix of a frame is always taken as incomplete |
| `Frames.FrameStable` | src/frame/decoder.rs:122-161 | Once a frame is complete or malformed, more octets change nothing |
| `Frames.AcceptedIsWellFormed` | src/frame/decoder.rs:122-205 | Whatever octets arrive, accepted SETTINGS have neither a duplicate nor an HTTP/2-only identifier, and no accepted frame has an HTTP/2-only type |
| `Frames.SettingsExactly` | src/frame/decoder.rs:164-185 | SETTINGS are accepted if and only if the payload spells them out pair by pair to its last octet, and each is genuine and new |
| `Frames.AcceptedExactly` | src/frame/decoder.rs:122-205 | A frame is accepted if and only if the octets begin with its type, its length and a payload that is its own to the last octet; GOAWAY and MAX_PUSH_ID are exactly one integer |
| `Frames.RefusedExactly` | src/frame/decoder.rs:90-205 | More octets are awaited exactly while header or payload is not all there; every other refusal has the cause that its type allows |
| `Frames.WritableExactly` | src/frame/encoder.rs:38-103 | A frame can be written exactly when its length fits 62 bits and it is not of the WebTransport type |
| `FrameCodec.WriteFrame` | src/frame/encoder.rs:90-186 | Writes exactly the frame, or nothing when the type forbids it or the buffer is too short |
| `FrameCodec.WriteSettings` | src/frame/encoder.rs:128-140 | The loop over settings writes exactly their encoding |
| `FrameCodec.SettingsLength` | src/frame/encoder.rs:76-87 | The length computed in advance is that of the encoding |
| `FrameCodec.ReadSettings` | src/frame/decoder.rs:164-185 | The loop with its offset computes what the payload denotes, errors included |
| `WtWindows.DataWindowKept` | src/webtransport/session/flow_control.rs:162-205 | Receiving what was checked and consuming keep the total within the announced maximum, and the maximum never shrinks |
| `WtWindows.StreamWindowKept` | src/webtransport/session/flow_control.rs:93-150 | The same for numbers of streams |
| `WtWindows.DataAnnounced` | src/webtransport/session/flow_control.rs:162-205 | A larger maximum is announced exactly when at most half the window is left and consumption allows for more, and is then a whole window beyond what was consumed |
| `WtWindows.DataNeverStarves` | src/webtransport/session/flow_control.rs:162-205 | A peer whose octets are all consumed has more than half the window open |
| `WtWindows.StreamsAnnounced` | src/webtransport/session/flow_control.rs:93-150 | The same for streams: announced exactly when at most half the places are left and more may be |
| `WtWindows.StreamsNeverStarve` | src/webtransport/session/flow_control.rs:93-150 | A peer whose streams have all ended has more than half the places open |
| `WtSessionObject.Session.InitializeFlowControl` | src/connection/wt_types.rs:158-199 | Sets the three windows and queues their announcements |
| `WtSessionObject.Session.AddReceivedDataAndTrack` | src/connection/wt_types.rs:294-306 | Window and per-stream count move together |
| `WtSessionObject.Session.AppendBufferedStreamData` | src/connection/wt_types.rs:351-361 | Appends to the early stream, or refuses beyond the limit and changes nothing |
| `WtSessionObject.Session.OnRemoteStreamClosed` | src/connection/wt_types.rs:250-270 | Frees one place in the right direction and queues what that announces |
| `WtSessionObject.Session.DeliverBufferedStreams` | src/connection/wt_session.rs:104-238 | The loop with its early exits and its put-back gives the events, closed streams, session and verdict of the delivery model |
| `WtSession.NoStreamLost` | src/connection/wt_session.rs:104-238 | After delivery every early stream is either opened and associated with all it carried, or, after a violation, still waiting with the same direction, octets and end |
| `WtConservation.NoneLostOnEstablish` | src/connection/wt_session.rs:425-489 | Establishing a session delivers every early stream; after a violation the closing event lists each of them |
| `WtConservation.Conservation` | src/connection/wt_session.rs:638-796 | In every run, a session has received exactly what its events add up to, a reset stream counting for the larger of what arrived and its final size less its header; that never exceeds the announced maximum; and each stream's account is its share |
| `WtConservation.TotalIsSum` | src/connection/wt_types.rs:231-321 | The total is the sum of the shares, over any list of distinct streams that has all that occur |
| `WtConservation.SharesAddUp` | src/connection/wt_session.rs:750-796 | In every run, what a session under flow control has received is the sum of what its streams are charged |
| `WtConservation.HandleKeeps` | src/connection/wt_session.rs:638-796 | Every input keeps the books of every session, a unidirectional stream that ends in one chunk included |
| `WtConservation.BooksOverRuns` | src/connection/wt_types.rs:231-321 | So they balance over all runs |
| `WtAccounting.ResetKeeps` | src/connection/wt_session.rs:638-796 | A reset keeps the books of every session, for peer-initiated and local streams, waiting or associated |
| `WtAccounting.StreamDataKeeps` | src/connection/wt_stream.rs:423-545 | So do octets and the end of a stream, accepted, held or refused |
| `WtAccounting.OneChunkKeeps` | src/connection/mod.rs:951-984 | So does a unidirectional stream that ends in the chunk that completes its type, in a pending session or an established one |
| `WtCreditRuns.Credit` | src/connection/wt_types.rs:202-270 | In every run and direction, a session under flow control has counted as received exactly the streams that were opened, and as closed exactly those of the peer that ended or were reset, less the unidirectional ones that ended in one chunk |
| `WtCreditRuns.PlacesComeBack` | src/connection/mod.rs:977-984 | Every place that was left is given back if and only if no stream of the session ended in one chunk |
| `WtOneChunk.PlaceIsLost` | src/connection/mod.rs:977-984 | A run in which one is not: connect, establish, and a stream of one octet in one chunk |
| `WtOneChunk.EndComesFirst` | src/connection/mod.rs:977-984 | In a session still pending, such a stream is reported as ended before it is opened, and no end follows |
| `WtOrderExact.OrderIsExact` | src/connection/wt_stream.rs:423-505 | In every run, for every stream of the peer: its octets, its end and its reset come after its one opening and nothing follows its end, its reset or its rejection, if and only if at no step it is opened (read as new, or after waiting) though something was reported of it, rejected though it is over, ends in one chunk while it has to wait, or speaks or is reset without being open |
| `WtOrderExact.OrderWhenReadOnce` | src/connection/wt_stream.rs:423-505 | For a stream that is never read again the condition is on the state alone: it neither ends in one chunk while it has to wait, nor speaks nor is reset while registered with a session that is not pending and does not have it |
| `WtReread.RejectedIsOpened` | src/connection/wt_stream.rs:286-415 | A lawful run of a server in which a stream is rejected for its size, read again, and opened: out of order |
| `WtReread.OneChunkIsOutOfOrder` | src/connection/mod.rs:977-984 | The run of `EndComesFirst` is lawful and out of order |
| `WtOrder.CourseMeans` | src/connection/wt_stream.rs:734-839 | Reading the events one by one decides exactly that order |
| `WtOrderExact.OpenMeansOpened` | src/connection/wt_session.rs:443-471 | In an orderly run that never reads the stream again, a session has the registered stream if and only if it was reported as opened |
| `WtUnopened.DrainedStreamSpeaks` | src/connection/mod.rs:1507-1532 | A lawful run of a client in which GOAWAY drains a pending session and the end of a stream is reported that was never opened: out of order |
| `WtUnopened.OrphanSpeaks` | src/connection/wt_session.rs:443-471 | A lawful run in which octets and the end of a waiting stream are reported after its session is closed: out of order |
| `WtUnopened.OrphanIsReset` | src/connection/wt_session.rs:638-745 | The same of its reset |
| `WtAdmission.StaysRegistered` | src/connection/wt_session.rs:506-569 | A new stream stays registered if and only if, in the state before, its session has room for it to wait with its payload, or is established and within its limits |
| `WtLifecycle.LifeInOrder` | src/connection/wt_session.rs:425-569 | Over every run each session is reported established at most once and closed at most once, in that order; one that is gone was closed or never reported |
| `WtLifecycle.NeverBack` | src/connection/mod.rs:1562-1577 | A session only moves forward through pending, established, draining and closed, and a closed one is never revived by a stream, a datagram or a CONNECT |
| `WtEndings.EstablishedEndsOnce` | src/connection/wt_session.rs:425-489 | In every run a session that was reported as established and is no longer there has been reported as closed exactly once; one that is there has not |
| `WtEndings.EndsExactly` | src/connection/wt_capsule.rs:262-291 | A session ends with an input if and only if a window is overrun, its CONNECT stream ends or is reset, it is closed or refused, or a limit is broken while it is established, each told from the state before |
| `WtEndings.EndingIsReported` | src/connection/wt_session.rs:425-489 | One report closes it, listing exactly the streams that were associated before, the one that came with the input, and those that were waiting; only an unanswered or refused request ends in silence |
| `WtEndings.EstablishReportsAll` | src/connection/wt_session.rs:104-238 | A session that breaks a limit while it is established is reported as established and then closed, and the report lists all streams that were associated or waiting and no others |
| `WtTold.NewStreamTells` | src/connection/wt_stream.rs:578-726 | A new stream is opened with its octets, or waits in silence, or is rejected, as gone exactly when there is no such session nor can there be |
| `WtTold.HeldIsKept` | src/connection/wt_session.rs:506-569 | A stream that waits is last in the queue with all it brought |
| `WtTold.DeliveredInOrder` | src/connection/wt_session.rs:104-238 | Waiting streams are handed over in the order in which they came, all of them unless a limit is broken |
| `WtTold.StreamDataTells` | src/connection/wt_stream.rs:734-839 | Octets and end of a registered stream outside a pending session are reported as they came, unless they are more than was announced |
| `WtTold.StreamDataWaits` | src/connection/wt_stream.rs:423-545 | In a pending session they are kept in order, up to 65536 octets, and nothing is told; beyond that the stream is rejected |
| `WtTold.ResetTells` | src/connection/wt_session.rs:638-796 | A reset is passed on with its final size, what never came is charged, the account is closed and a place of the peer given back |
| `WtTold.WaitingReset` | src/connection/wt_session.rs:638-745 | A waiting stream that is reset is forgotten without a word, its place in the queue included |
| `WtTold.DatagramTold` | src/connection/wt_stream.rs:22-115 | A datagram is handed over as it came to an established or draining session, waits for a pending one up to a hundred, creates one that may still come, and is dropped otherwise |
| `WtTold.DatagramsDelivered` | src/connection/wt_session.rs:1196-1250 | Datagrams that waited are handed over in order behind the streams |
| `WtTold.RegisterIs` | src/connection/wt_stream.rs:203-260 | A local stream is taken up exactly when it is local, new and of an established session |
| `WtTold.ConsumedIs` | src/connection/wt_session.rs:600-606 | Consumed octets count for their session and for nothing else, and what that announces is queued |
| `WtTold.AnnouncedIs` | src/connection/wt_types.rs:231-321 | Whatever opens a window further is announced by a capsule of its kind, and nothing else is |
| `WtTold.StartIs` | src/connection/wt_types.rs:158-199 | An established session has the limits of SETTINGS, each for its kind, and announces exactly those above 0 where capsules have to |
| `WtTransparency.EarlyArrivalIsInvisible` | src/connection/mod.rs:997-1179 | However a bidirectional stream is cut into chunks, header included, and whichever come before SETTINGS or before the session, the application sees one opening, the payload and the end; the session is charged the payload, one stream received and one closed; nothing waits anywhere |
| `WtTransparency.SchedulesAgree` | src/connection/wt_stream.rs:578-726 | Any two schedules of the same stream end in the same events seen, octets charged and stream credit used |
| `WtTransparency.NoRoomFails` | src/connection/mod.rs:1088-1150 | A chunk makes the stream fail if and only if what waits would exceed the limit |
| `WtTransparency.WrittenStream` | src/connection/wt_stream.rs:555-572 | Every payload of every session has such a stream, with the header as it is written |
| `WtTransparency.FeedKeeps` | src/connection/wt_stream.rs:423-545 | One more chunk leads to the state that depends only on the octets so far, wherever they waited |
| `WtForeign.OnlyHeadedStreams` | src/connection/wt_stream.rs:578-726 | Whatever octets arrive in whatever chunks: a stream reaches a session exactly when they begin with the signal and the identifier of a request stream; until then not one octet is lost, and anything else is refused |
| `WtForeign.UniTakenExactly` | src/connection/mod.rs:744-990 | What each chunk of a unidirectional stream leads to, told from all its octets so far: type 0x54 after SETTINGS, then the identifier of a request stream, or the stream is lost; the end in the chunk that completes both is heard with the stream |
| `WtInterleaving.InvisibleInCompany` | src/connection/wt_session.rs:506-569 | The same in a whole connection: between the arrivals it may handle any other input of any stream and session; as long as the stream is not refused and its session goes on, its events are exactly one opening, its payload and exactly one end, and the ledger charges it its payload |
| `WtUniStream.UniInvisibleInCompany` | src/connection/wt_stream.rs:286-415 | The same for unidirectional streams, type and session identifier cut anywhere, unless the end comes in the chunk that completes the type |
| `WtUniStream.TakeIs` | src/connection/mod.rs:744-825 | What waits in front of the connection, and what the connection hears, depends on the octets so far and not on how they were cut |
| `WtEarliestRun.EarliestRunIsFine` | src/connection/mod.rs:1155-1179 | The premises of that result are met, for every session and every payload with room to wait, by a run in which the whole stream precedes SETTINGS, the CONNECT request and the response |
| `WtEarliestUni.UniRunIsFine` | src/connection/mod.rs:825-990 | The premises of the result for unidirectional streams are met by a run in which the stream precedes the CONNECT request and the response |
| `WtBystanders.ApartHandle` | src/connection/wt_stream.rs:734-838 | No input about other streams and sessions changes what the connection holds of a stream whose session goes on |
| `WtStreamView.DeliveredShare` | src/connection/wt_session.rs:104-238 | Of everything a delivery emits, the share of one stream is exactly its own entry |

## Left out

- Overflow of `u64` and `usize` outside the Huffman accumulator: numbers are unbounded, with the bound 2^62 - 1 where the code checks it.
- Acknowledgments, cancellations and capacity changes that wait for their stream to be opened: the decoder stream and the encoder stream are open from the start.
- QPACK cancellations sent because of STOP_SENDING: only resets cancel in the runs.
- `set_capacity` with references outstanding: in the class, not in the runs of `QpackSystem`.
- Request streams: each is a queue of encoded field sections; frames around them, body octets, FIN and header events are not in the runs.
- The static-only `Encoder` and `Decoder` types: the dynamic ones contain their branches.
- `Header::new` and `validation.rs`: long lists of checks on single names and values.
- The upkeep of the ordered set of blocked streams: `QpackRetry` takes its content in ascending order.
- Prefix widths other than 1 to 8, which `src/qpack/integer.rs` refuses and no caller uses.
- Flow-control limits that the peer grants: only the receiving direction is modelled.
- Update in place of the connection object: `QpackSystem`, `WtConnection` and `WtEarlyStream` are state machines on values, while tables, encoders, decoders, stream receivers and sessions are classes. What is not captured is that several handlers share one object.
- `Settings::from_payload`, which copies the settings into a struct.
- The two maps of unidirectional and bidirectional streams: one map with a direction stands for both.
- WtTransparency.EarlyArrivalIsInvisible: bidirectional streams that the client opened. `WtUniStream.UniInvisibleInCompany` is about unidirectional ones, which are refused before SETTINGS; it leaves out those that end in the chunk that completes their type, of which it would be false.
- WtInterleaving.InvisibleInCompany: that the stream is not refused and its session not ended is asked of the run; the limits that decide it are those of `WtConnection.Associate` and `WtWindows`.
- Reliable sizes of closed sessions, error codes, capsule and datagram octets, negotiation of WebTransport drafts, and CONNECT request and response headers: the inputs of `WtConnection` start after they are parsed and accepted.
- The number of streams that may wait for SETTINGS: a stream that is turned away there is not followed further.
- Order among sessions and streams that a hash map yields: closing events carry sets where the code iterates over one.
- GOAWAY beyond the bound it sets for new sessions, critical streams, sticky connection errors.
- Asynchronous crates, client and server wrappers, fuzz targets, formatting and redaction.
