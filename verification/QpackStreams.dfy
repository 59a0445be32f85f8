/** The mutable ends of the encoder and the decoder stream, and the loops with which a
    connection drains them, proved against the value model. */
module QpackStreams {
  import opened Bytes
  import opened Fields
  import opened FieldLines
  import opened PrefixInteger
  import opened StringLiteral
  import opened TableModel
  import EM = EncoderModel
  import E = EncoderInstructions
  import D = DecoderInstructions
  import T = DynamicTable
  import DE = DynamicEncoder

  // ---- Encoder stream ---------------------------------------------------------

  /** The sending end: instructions are appended, whole, to the send buffer. */
  class EncoderStream {
    const book: Codebook
    var sendBuffer: bytes
    var maxTableCapacity: nat

    constructor (book: Codebook)
      requires Usable(book)
      ensures this.book == book && sendBuffer == [] && maxTableCapacity == 0
    {
      this.book := book;
      sendBuffer, maxTableCapacity := [], 0;
    }

    /** What every `encode_` operation does: it refuses when the table is disabled, else it
        appends the instruction. */
    twostate predicate Appended(i: E.Instruction, new r: Result<()>)
      requires Usable(book)
      reads this
    {
      && r == (if maxTableCapacity == 0 then Err(DynamicTableDisabled)
               else if i.SetTableCapacity? && i.capacity > maxTableCapacity then Err(CapacityExceeded) else Ok(()))
      && sendBuffer == (if r.Ok? then old(sendBuffer) + E.EncodeInstruction(book, i) else old(sendBuffer))
    }

    method EncodeSetCapacity(capacity: nat) returns (r: Result<()>)
      requires Usable(book)
      modifies this`sendBuffer
      ensures Appended(E.SetTableCapacity(capacity), r)
    {
      hide Encode;
      SmallPowers();
      if maxTableCapacity == 0 {
        return Err(DynamicTableDisabled);
      }
      if capacity > maxTableCapacity {
        return Err(CapacityExceeded);
      }
      sendBuffer := EncodeToVec(sendBuffer, capacity, 5, 0x20);
      return Ok(());
    }

    method EncodeInsertWithNameRef(isStatic: bool, index: nat, value: bytes) returns (r: Result<()>)
      requires Usable(book)
      modifies this`sendBuffer
      ensures Appended(E.InsertNameRef(isStatic, index, value), r)
    {
      hide Encode, EncodeString;
      SmallPowers();
      if maxTableCapacity == 0 {
        return Err(DynamicTableDisabled);
      }
      var out := EncodeToVec(sendBuffer, index, 6, if isStatic then 0xc0 else 0x80);
      sendBuffer := EncodeStringToVec(book.huffman, out, value, 7, 0);
      return Ok(());
    }

    method EncodeInsertWithLiteralName(name: bytes, value: bytes) returns (r: Result<()>)
      requires Usable(book)
      modifies this`sendBuffer
      ensures Appended(E.InsertLiteral(name, value), r)
    {
      hide EncodeString;
      SmallPowers();
      if maxTableCapacity == 0 {
        return Err(DynamicTableDisabled);
      }
      var out := EncodeStringToVec(book.huffman, sendBuffer, name, 5, 0x40);
      sendBuffer := EncodeStringToVec(book.huffman, out, value, 7, 0);
      return Ok(());
    }

    method EncodeDuplicate(index: nat) returns (r: Result<()>)
      requires Usable(book)
      modifies this`sendBuffer
      ensures Appended(E.DuplicateEntry(index), r)
    {
      hide Encode;
      SmallPowers();
      if maxTableCapacity == 0 {
        return Err(DynamicTableDisabled);
      }
      sendBuffer := EncodeToVec(sendBuffer, index, 5, 0);
      return Ok(());
    }
  }

  /** The outcome of `process`: nothing yet, an instruction, or an error. */
  type Polled = Result<Option<E.Instruction>>

  class EncoderStreamReceiver {
    const book: Codebook
    var recvBuffer: bytes
    var maxTableCapacity: nat

    constructor (book: Codebook)
      requires Usable(book)
      ensures this.book == book && recvBuffer == [] && maxTableCapacity == 0
    {
      this.book := book;
      recvBuffer, maxTableCapacity := [], 0;
    }

    method Receive(data: bytes)
      modifies this`recvBuffer
      ensures recvBuffer == old(recvBuffer) + data
    {
      recvBuffer := recvBuffer + data;
    }

    /** The effect of one call on the table and the buffer. */
    twostate predicate Processed(table: T.DynamicTable, new r: Polled)
      requires Usable(book) && old(table.Valid())
      reads this, table
    {
      && table.Valid()
      && match E.Process(book, old(table.Value()), old(recvBuffer), maxTableCapacity)
         case Waiting => r == Ok(None) && table.Value() == old(table.Value()) && recvBuffer == old(recvBuffer)
         case Refused(e, n) => r == Err(e) && table.Value() == old(table.Value()) && recvBuffer == old(recvBuffer)[n..]
         case Applied(i, next, n) => r == Ok(Some(i)) && table.Value() == next && recvBuffer == old(recvBuffer)[n..]
    }

    method Process(table: T.DynamicTable) returns (r: Polled)
      requires Usable(book) && table.Valid()
      modifies this`recvBuffer, table
      ensures Processed(table, r)
    {
      hide E.DecodeInsertNameRef, E.DecodeInsertLiteral, E.DecodeNumbered, E.Apply, E.DroppedOnError;
      if recvBuffer == [] {
        return Ok(None);
      }
      var first := recvBuffer[0];
      var parsed;
      if first / 128 % 2 == 1 {
        parsed := ReadInsertNameRef();
      } else if first / 64 % 2 == 1 {
        parsed := ReadInsertLiteral();
      } else {
        parsed := ReadNumbered(first / 32 % 2 == 1);
      }
      if parsed.Err? {
        return if parsed.error == BufferTooShort then Ok(None) else Err(parsed.error);
      }
      r := Perform(table, parsed.value.0, parsed.value.1);
    }

    method ReadInsertNameRef() returns (r: Result<(E.Instruction, nat)>)
      requires Usable(book) && recvBuffer != []
      ensures r == E.DecodeInsertNameRef(book, recvBuffer)
    {
      hide Decode, DecodeString;
      var isStatic := recvBuffer[0] / 64 % 2 == 1;
      var index := DecodeLoop(recvBuffer, 6);
      if index.Err? {
        return Err(index.error);
      }
      var value := ReadString(book.huffman, recvBuffer[index.value.1..], 7);
      if value.Err? {
        return Err(value.error);
      }
      return Ok((E.InsertNameRef(isStatic, index.value.0, value.value.0), index.value.1 + value.value.1));
    }

    method ReadInsertLiteral() returns (r: Result<(E.Instruction, nat)>)
      requires Usable(book)
      ensures r == E.DecodeInsertLiteral(book, recvBuffer)
    {
      hide DecodeString;
      var name := ReadString(book.huffman, recvBuffer, 5);
      if name.Err? {
        return Err(name.error);
      }
      var value := ReadString(book.huffman, recvBuffer[name.value.1..], 7);
      if value.Err? {
        return Err(value.error);
      }
      return Ok((E.InsertLiteral(name.value.0, value.value.0), name.value.1 + value.value.1));
    }

    method ReadNumbered(isCapacity: bool) returns (r: Result<(E.Instruction, nat)>)
      ensures r == E.DecodeNumbered(recvBuffer, isCapacity)
    {
      hide Decode;
      var v := DecodeLoop(recvBuffer, 5);
      if v.Err? {
        return Err(v.error);
      }
      return Ok((if isCapacity then E.SetTableCapacity(v.value.0) else E.DuplicateEntry(v.value.0), v.value.1));
    }

    /** The table operation of an instruction of `n` octets. The octets are dropped once the
        table has been tried, even when it refused. */
    method Perform(table: T.DynamicTable, i: E.Instruction, n: nat) returns (r: Polled)
      requires Usable(book) && table.Valid() && n <= |recvBuffer|
      modifies this`recvBuffer, table
      ensures table.Valid()
      ensures var applied := E.Apply(book, old(table.Value()), i, maxTableCapacity);
        && (applied.Ok? ==> r == Ok(Some(i)) && table.Value() == applied.value && recvBuffer == old(recvBuffer)[n..])
        && (applied.Err? ==> r == Err(applied.error) && table.Value() == old(table.Value()))
        && (applied.Err? ==> recvBuffer == old(recvBuffer)[E.DroppedOnError(book, old(table.Value()), i, n)..])
    {
      if i.SetTableCapacity? {
        if i.capacity > maxTableCapacity {
          return Err(DecodeFailed);
        }
        recvBuffer := recvBuffer[n..];
        table.SetCapacity(i.capacity);
        return Ok(Some(i));
      }
      if i.DuplicateEntry? {
        DuplicateKeeps(table.Value(), i.index);
        var copied := table.Duplicate(i.index);
        recvBuffer := recvBuffer[n..];
        return if copied.None? then Err(InvalidIndex(i.index)) else Ok(Some(i));
      }
      var f := FieldToInsert(table, i);
      if f.Err? {
        return Err(f.error);
      }
      var done := table.Insert(f.value);
      recvBuffer := recvBuffer[n..];
      return if done.None? then Err(DecodeFailed) else Ok(Some(i));
    }

    method FieldToInsert(table: T.DynamicTable, i: E.Instruction) returns (r: Result<Field>)
      requires Usable(book) && table.Valid() && (i.InsertNameRef? || i.InsertLiteral?)
      ensures r == E.Denotes(book, table.Value(), i)
    {
      match i {
        case InsertLiteral(name, value) => return Ok(Field(name, value));
        case InsertNameRef(isStatic, index, value) =>
          if isStatic {
            if index >= STATIC_TABLE_LEN {
              return Err(InvalidIndex(index));
            }
            return Ok(Field(book.fixed[index].name, value));
          }
          var f := table.GetByRelativeIndexEncoder(index);
          return if f.None? then Err(InvalidIndex(index)) else Ok(Field(f.value.name, value));
      }
    }
  }

  lemma DuplicateKeeps(t: Table, index: nat)
    ensures Duplicate(t, index).1.None? ==> Duplicate(t, index).0 == t
  {
    var f := ByEncoderRelative(t, index);
    if f.Some? {
      InsertAllOrNothing(t, f.value);
    }
  }

  /** `process_encoder_stream`: reads instructions until there is none or one is refused. */
  method ProcessEncoderStream(receiver: EncoderStreamReceiver, table: T.DynamicTable) returns (r: Result<()>)
    requires Usable(receiver.book) && table.Valid()
    modifies receiver`recvBuffer, table
    ensures table.Valid()
    ensures var d := E.Drain(receiver.book, old(table.Value()), old(receiver.recvBuffer), receiver.maxTableCapacity);
      && table.Value() == d.table && receiver.recvBuffer == d.buffer
      && r == (if d.Idle? then Ok(()) else Err(d.error))
  {
    hide E.Process;
    ghost var done: seq<E.Instruction> := [];
    ghost var d := E.Drain(receiver.book, table.Value(), receiver.recvBuffer, receiver.maxTableCapacity);
    E.AfterAfter([], [], d);
    while true
      invariant table.Valid()
      invariant d == E.After(done, E.Drain(receiver.book, table.Value(), receiver.recvBuffer,
                                           receiver.maxTableCapacity))
      decreases |receiver.recvBuffer|
    {
      ghost var t, buffer := table.Value(), receiver.recvBuffer;
      var polled := receiver.Process(table);
      if polled.Err? {
        return Err(polled.error);
      }
      if polled.value.None? {
        return Ok(());
      }
      E.AfterAfter(done, [polled.value.value],
                   E.Drain(receiver.book, table.Value(), receiver.recvBuffer, receiver.maxTableCapacity));
      done := done + [polled.value.value];
    }
  }

  // ---- Decoder stream ---------------------------------------------------------

  class DecoderStream {
    var sendBuffer: bytes

    constructor ()
      ensures sendBuffer == []
    {
      sendBuffer := [];
    }

    method EncodeSectionAcknowledgment(stream: nat)
      modifies this
      ensures sendBuffer == old(sendBuffer) + D.EncodeReport(D.SectionAck(stream))
    {
      SmallPowers();
      sendBuffer := EncodeToVec(sendBuffer, stream, 7, 0x80);
    }

    method EncodeStreamCancellation(stream: nat)
      modifies this
      ensures sendBuffer == old(sendBuffer) + D.EncodeReport(D.StreamCancel(stream))
    {
      SmallPowers();
      sendBuffer := EncodeToVec(sendBuffer, stream, 6, 0x40);
    }

    method EncodeInsertCountIncrement(increment: nat)
      modifies this
      ensures sendBuffer == old(sendBuffer) + D.EncodeReport(D.CountIncrement(increment))
    {
      SmallPowers();
      sendBuffer := EncodeToVec(sendBuffer, increment, 6, 0);
    }
  }

  class DecoderStreamReceiver {
    var recvBuffer: bytes
    var knownReceivedCount: nat

    constructor ()
      ensures recvBuffer == [] && knownReceivedCount == 0
    {
      recvBuffer, knownReceivedCount := [], 0;
    }

    method Receive(data: bytes)
      modifies this`recvBuffer
      ensures recvBuffer == old(recvBuffer) + data
    {
      recvBuffer := recvBuffer + data;
    }

    /** One report, or nothing yet; a refused report stays in the buffer. */
    method Process(totalInsertCount: nat) returns (r: Result<Option<D.Report>>)
      modifies this
      ensures match D.Receive(old(recvBuffer), old(knownReceivedCount), totalInsertCount)
        case Waiting => r == Ok(None) && recvBuffer == old(recvBuffer) && knownReceivedCount == old(knownReceivedCount)
        case Refused(e) => r == Err(e) && recvBuffer == old(recvBuffer) && knownReceivedCount == old(knownReceivedCount)
        case Got(report, known, n) =>
          r == Ok(Some(report)) && recvBuffer == old(recvBuffer)[n..] && knownReceivedCount == known
    {
      hide Decode;
      if recvBuffer == [] {
        return Ok(None);
      }
      var first := recvBuffer[0];
      var v := DecodeLoop(recvBuffer, if first / 128 % 2 == 1 then 7 else 6);
      if v.Err? {
        return if v.error == BufferTooShort then Ok(None) else Err(v.error);
      }
      var (number, n) := v.value;
      if first / 128 % 2 == 1 {
        recvBuffer := recvBuffer[n..];
        return Ok(Some(D.SectionAck(number)));
      } else if first / 64 % 2 == 1 {
        recvBuffer := recvBuffer[n..];
        return Ok(Some(D.StreamCancel(number)));
      }
      if number == 0 || knownReceivedCount + number > totalInsertCount {
        return Err(DecodeFailed);
      }
      recvBuffer := recvBuffer[n..];
      knownReceivedCount := knownReceivedCount + number;
      return Ok(Some(D.CountIncrement(number)));
    }
  }

  /** `process_decoder_stream` */
  method ProcessDecoderStream(receiver: DecoderStreamReceiver, encoder: DE.DynamicEncoder) returns (r: Result<()>)
    requires encoder.Valid()
    modifies receiver, encoder`unackedSectionRics, encoder`knownReceivedCount, encoder.table
    ensures encoder.Valid()
    ensures var d := D.Drain(old(encoder.Value()), old(receiver.knownReceivedCount), old(receiver.recvBuffer),
                             |old(encoder.Value().table.log)|);
      && encoder.Value() == d.encoder && receiver.knownReceivedCount == d.known && receiver.recvBuffer == d.buffer
      && r == (if d.Idle? then Ok(()) else Err(d.error))
  {
    hide D.Receive;
    var totalInsertCount := encoder.table.insertCount;
    ghost var d := D.Drain(encoder.Value(), receiver.knownReceivedCount, receiver.recvBuffer, totalInsertCount);
    while true
      invariant encoder.Valid()
      invariant d == D.Drain(encoder.Value(), receiver.knownReceivedCount, receiver.recvBuffer, totalInsertCount)
      decreases |receiver.recvBuffer|
    {
      var polled := receiver.Process(totalInsertCount);
      if polled.Err? {
        return Err(polled.error);
      }
      if polled.value.None? {
        return Ok(());
      }
      match polled.value.value {
        case CountIncrement(_) =>
          encoder.Acknowledge(receiver.knownReceivedCount);
        case SectionAck(stream) =>
          var acked := encoder.AckSection(stream);
          if acked.Err? {
            return Err(acked.error);
          }
        case StreamCancel(stream) =>
          encoder.CancelStream(stream);
      }
    }
  }
}
