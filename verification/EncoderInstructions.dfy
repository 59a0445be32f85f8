/** The instructions of the encoder stream (section 4.3 of RFC 9204): their wire form, what
    they do to a table, and how a receiver drains a stream of them. */
module EncoderInstructions {
  import opened Bytes
  import opened Fields
  import opened FieldLines
  import opened PrefixInteger
  import opened StringLiteral
  import opened TableModel

  datatype Instruction =
    | SetTableCapacity(capacity: nat)
    | InsertNameRef(isStatic: bool, index: nat, value: bytes)
    | InsertLiteral(name: bytes, value: bytes)
    | DuplicateEntry(index: nat)

  function EncodeInstruction(k: Codebook, i: Instruction): (r: bytes)
    requires Usable(k)
    ensures |r| >= 1
  {
    SmallPowers();
    match i
    case SetTableCapacity(capacity) => Encode(capacity, 5, 0x20)
    case InsertNameRef(isStatic, index, value) =>
      Encode(index, 6, if isStatic then 0xc0 else 0x80) + EncodeString(k.huffman, value, 7, 0, true)
    case InsertLiteral(name, value) =>
      EncodeString(k.huffman, name, 5, 0x40, true) + EncodeString(k.huffman, value, 7, 0, true)
    case DuplicateEntry(index) => Encode(index, 5, 0)
  }

  ghost function DecodeInsertNameRef(k: Codebook, data: bytes): (r: Result<(Instruction, nat)>)
    requires Usable(k) && data != []
    ensures r.Ok? ==> 1 <= r.value.1 <= |data|
  {
    var (index, n) :- Decode(data, 6);
    var (value, m) :- DecodeString(k.huffman, data[n..], 7);
    Ok((InsertNameRef(data[0] / 64 % 2 == 1, index, value), n + m))
  }

  ghost function DecodeInsertLiteral(k: Codebook, data: bytes): (r: Result<(Instruction, nat)>)
    requires Usable(k)
    ensures r.Ok? ==> 1 <= r.value.1 <= |data|
  {
    var (name, n) :- DecodeString(k.huffman, data, 5);
    var (value, m) :- DecodeString(k.huffman, data[n..], 7);
    Ok((InsertLiteral(name, value), n + m))
  }

  function DecodeNumbered(data: bytes, isCapacity: bool): (r: Result<(Instruction, nat)>)
    ensures r.Ok? ==> 1 <= r.value.1 <= |data|
  {
    var (v, n) :- Decode(data, 5);
    Ok((if isCapacity then SetTableCapacity(v) else DuplicateEntry(v), n))
  }

  /** One instruction off the front of the buffer. */
  ghost function DecodeInstruction(k: Codebook, data: bytes): (r: Result<(Instruction, nat)>)
    requires Usable(k)
    ensures r.Ok? ==> 1 <= r.value.1 <= |data|
  {
    if data == [] then Err(BufferTooShort)
    else if data[0] / 128 % 2 == 1 then DecodeInsertNameRef(k, data)
    else if data[0] / 64 % 2 == 1 then DecodeInsertLiteral(k, data)
    else DecodeNumbered(data, data[0] / 32 % 2 == 1)
  }

  // ---- Effects --------------------------------------------------------------

  /** The field an insertion adds, names and entries being looked up in `t`. */
  function Denotes(k: Codebook, t: Table, i: Instruction): Result<Field>
    requires |k.fixed| == STATIC_TABLE_LEN && !i.SetTableCapacity?
  {
    match i
    case InsertLiteral(name, value) => Ok(Field(name, value))
    case InsertNameRef(isStatic, index, value) =>
      if isStatic then
        if index < STATIC_TABLE_LEN then Ok(Field(k.fixed[index].name, value)) else Err(InvalidIndex(index))
      else (var f := ByEncoderRelative(t, index);
            if f.Some? then Ok(Field(f.value.name, value)) else Err(InvalidIndex(index)))
    case DuplicateEntry(index) =>
      var f := ByEncoderRelative(t, index);
      if f.Some? then Ok(f.value) else Err(InvalidIndex(index))
  }

  /** `i` is an instruction by which a sender with table `t` may ask for the field `f`. */
  predicate Names(k: Codebook, t: Table, i: Instruction, f: Field) {
    match i
    case SetTableCapacity(_) => false
    case InsertLiteral(name, value) => f.name == name && f.value == value
    case InsertNameRef(isStatic, index, value) =>
      && f.value == value
      && if isStatic then index < |k.fixed| && k.fixed[index].name == f.name
         else index < |t.log| - t.dropped && t.log[|t.log| - 1 - index].name == f.name
    case DuplicateEntry(index) => index < |t.log| - t.dropped && t.log[|t.log| - 1 - index] == f
  }

  /** Static indices count from 0, relative ones from the newest entry back. */
  lemma NamesIsDenotes(k: Codebook, t: Table, i: Instruction, f: Field)
    requires |k.fixed| == STATIC_TABLE_LEN && !i.SetTableCapacity?
    ensures Names(k, t, i, f) <==> Denotes(k, t, i) == Ok(f)
    ensures Denotes(k, t, i).Err? ==> Denotes(k, t, i) == Err(InvalidIndex(i.index))
  {
  }

  function Apply(k: Codebook, t: Table, i: Instruction, maxCapacity: nat): Result<Table>
    requires |k.fixed| == STATIC_TABLE_LEN
  {
    if i.SetTableCapacity? then
      if i.capacity > maxCapacity then Err(DecodeFailed) else Ok(SetCapacity(t, i.capacity))
    else
      var f :- Denotes(k, t, i);
      var (r, index) := Insert(t, f);
      if index.Some? then Ok(r) else Err(if i.DuplicateEntry? then InvalidIndex(i.index) else DecodeFailed)
  }

  /** What an instruction does to a table that protects nothing: the field it names becomes the
      newest entry if it fits an empty table, and only then; a capacity is taken up to the limit. */
  lemma ApplyIs(k: Codebook, t: Table, i: Instruction, maxCapacity: nat)
    requires |k.fixed| == STATIC_TABLE_LEN && t.limit == 0
    ensures var r := Apply(k, t, i, maxCapacity);
      if i.SetTableCapacity? then
        && (r.Ok? <==> i.capacity <= maxCapacity)
        && (r.Ok? ==> r.value.log == t.log && r.value.capacity == i.capacity && Size(r.value) <= i.capacity)
      else
        && (r.Ok? <==> exists f :: Names(k, t, i, f) && FieldSize(f) <= t.capacity)
        && (forall f :: Names(k, t, i, f) && r.Ok? ==> r.value.log == t.log + [f] && r.value.capacity == t.capacity)
  {
    hide Evict, Size, Denotes, Names;
    if i.SetTableCapacity? {
      EvictBlockedOrFits(t.(capacity := i.capacity), 0);
    } else {
      var d := Denotes(k, t, i);
      if d.Ok? {
        NamesIsDenotes(k, t, i, d.value);
        InsertAllOrNothing(t, d.value);
        if Insert(t, d.value).1.Some? {
          InsertAppends(t, d.value);
        }
      }
      forall f | Names(k, t, i, f)
        ensures d == Ok(f)
      {
        NamesIsDenotes(k, t, i, f);
      }
    }
  }

  /** The octets that leave the buffer with a refused instruction: none when the refusal
      comes before the table operation. */
  function DroppedOnError(k: Codebook, t: Table, i: Instruction, n: nat): nat
    requires |k.fixed| == STATIC_TABLE_LEN
  {
    if i.DuplicateEntry? || (!i.SetTableCapacity? && Denotes(k, t, i).Ok?) then n else 0
  }

  datatype Processed =
    | Waiting
    | Applied(instruction: Instruction, table: Table, consumed: nat)
    | Refused(error: QpackError, consumed: nat)

  /** One call of `process`: a partial instruction waits for more octets. */
  ghost function Process(k: Codebook, t: Table, buffer: bytes, maxCapacity: nat): (r: Processed)
    requires Usable(k)
    ensures r.Applied? ==> 1 <= r.consumed <= |buffer|
    ensures r.Refused? ==> r.consumed <= |buffer|
  {
    match DecodeInstruction(k, buffer)
    case Err(e) => if e == BufferTooShort then Waiting else Refused(e, 0)
    case Ok((i, n)) =>
      match Apply(k, t, i, maxCapacity)
      case Ok(next) => Applied(i, next, n)
      case Err(e) => Refused(e, DroppedOnError(k, t, i, n))
  }

  /** When `process` waits and when it refuses: for octets only while the instruction may still be
      completed; and a refused instruction leaves the buffer exactly when the table was tried. */
  lemma ProcessIs(k: Codebook, t: Table, buffer: bytes, maxCapacity: nat)
    requires Usable(k)
    ensures var d, r := DecodeInstruction(k, buffer), Process(k, t, buffer, maxCapacity);
      && (r.Waiting? <==> d == Err(BufferTooShort))
      && (d.Err? && d.error != BufferTooShort ==> r == Refused(d.error, 0))
      && (d.Ok? ==>
            var (i, n) := d.value;
            && (r.Applied? <==> Apply(k, t, i, maxCapacity).Ok?)
            && (r.Applied? ==> r == Applied(i, Apply(k, t, i, maxCapacity).value, n))
            && (r.Refused? ==>
                  && r.error == Apply(k, t, i, maxCapacity).error
                  && (r.consumed == n <==> i.DuplicateEntry? || exists f :: Names(k, t, i, f))
                  && (r.consumed == n || r.consumed == 0)))
  {
    hide DecodeInstruction, Apply, Denotes, Names;
    var d := DecodeInstruction(k, buffer);
    if d.Ok? && !d.value.0.SetTableCapacity? {
      var i := d.value.0;
      if Denotes(k, t, i).Ok? {
        NamesIsDenotes(k, t, i, Denotes(k, t, i).value);
      }
      forall f | Names(k, t, i, f)
        ensures Denotes(k, t, i) == Ok(f)
      {
        NamesIsDenotes(k, t, i, f);
      }
    } else if d.Ok? {
      NamesNothing(k, t, d.value.0);
    }
  }

  lemma NamesNothing(k: Codebook, t: Table, i: Instruction)
    requires i.SetTableCapacity?
    ensures !exists f :: Names(k, t, i, f)
  {
  }

  datatype Drained =
    | Idle(instructions: seq<Instruction>, table: Table, buffer: bytes)
    | Broken(instructions: seq<Instruction>, table: Table, buffer: bytes, error: QpackError)

  function After(done: seq<Instruction>, d: Drained): Drained {
    d.(instructions := done + d.instructions)
  }

  /** Calls `process` until it has nothing more to do. */
  ghost function Drain(k: Codebook, t: Table, buffer: bytes, maxCapacity: nat): Drained
    requires Usable(k)
    decreases |buffer|
  {
    match Process(k, t, buffer, maxCapacity)
    case Waiting => Idle([], t, buffer)
    case Refused(e, n) => Broken([], t, buffer[n..], e)
    case Applied(i, next, n) => After([i], Drain(k, next, buffer[n..], maxCapacity))
  }

  // ---- Round trip -----------------------------------------------------------

  predicate Sendable(i: Instruction) {
    match i
    case SetTableCapacity(capacity) => capacity <= MAX_VALUE
    case InsertNameRef(_, index, value) => index <= MAX_VALUE && |value| <= MAX_VALUE
    case InsertLiteral(name, value) => |name| <= MAX_VALUE && |value| <= MAX_VALUE
    case DuplicateEntry(index) => index <= MAX_VALUE
  }

  lemma NumberedRoundTrip(k: Codebook, i: Instruction, rest: bytes)
    requires Usable(k) && Sendable(i) && (i.SetTableCapacity? || i.DuplicateEntry?)
    ensures DecodeInstruction(k, EncodeInstruction(k, i) + rest) == Ok((i, |EncodeInstruction(k, i)|))
  {
    hide Decode, Encode, Pow2;
    SmallPowers();
    var v, flag := if i.SetTableCapacity? then i.capacity else i.index, if i.SetTableCapacity? then 0x20 else 0;
    RoundTrip(v, 5, flag, rest);
    var data := Encode(v, 5, flag) + rest;
    assert data[0] == Encode(v, 5, flag)[0];
    assert data[0] as nat / 32 == flag / 32;
  }

  lemma InsertNameRefRoundTrip(k: Codebook, i: Instruction, rest: bytes)
    requires Usable(k) && Sendable(i) && i.InsertNameRef?
    ensures DecodeInstruction(k, EncodeInstruction(k, i) + rest) == Ok((i, |EncodeInstruction(k, i)|))
  {
    hide Decode, Encode, DecodeString, EncodeString, Pow2;
    SmallPowers();
    var flag := if i.isStatic then 0xc0 else 0x80;
    var head, tail := Encode(i.index, 6, flag), EncodeString(k.huffman, i.value, 7, 0, true);
    var data := head + tail + rest;
    assert data == head + (tail + rest);
    RoundTrip(i.index, 6, flag, tail + rest);
    StringRoundTrip(k.huffman, i.value, 7, 0, true, rest);
    assert data[|head|..] == tail + rest;
    assert data[0] == head[0] && data[0] as nat / 64 == flag / 64;
  }

  lemma InsertLiteralRoundTrip(k: Codebook, i: Instruction, rest: bytes)
    requires Usable(k) && Sendable(i) && i.InsertLiteral?
    ensures DecodeInstruction(k, EncodeInstruction(k, i) + rest) == Ok((i, |EncodeInstruction(k, i)|))
  {
    hide DecodeString, EncodeString, Pow2;
    SmallPowers();
    var head := EncodeString(k.huffman, i.name, 5, 0x40, true);
    var tail := EncodeString(k.huffman, i.value, 7, 0, true);
    var data := head + tail + rest;
    assert data == head + (tail + rest);
    StringRoundTrip(k.huffman, i.name, 5, 0x40, true, tail + rest);
    StringRoundTrip(k.huffman, i.value, 7, 0, true, rest);
    assert data[|head|..] == tail + rest;
    assert data[0] == head[0] && data[0] as nat / 64 == 0x40 / 64;
  }

  /** Every instruction is read back as it was written, whatever follows it. */
  lemma InstructionRoundTrip(k: Codebook, i: Instruction, rest: bytes)
    requires Usable(k) && Sendable(i)
    ensures DecodeInstruction(k, EncodeInstruction(k, i) + rest) == Ok((i, |EncodeInstruction(k, i)|))
  {
    hide DecodeInstruction, EncodeInstruction;
    match i {
      case InsertNameRef(_, _, _) => InsertNameRefRoundTrip(k, i, rest);
      case InsertLiteral(_, _) => InsertLiteralRoundTrip(k, i, rest);
      case _ => NumberedRoundTrip(k, i, rest);
    }
  }

  /** The patterns of section 4.3 of RFC 9204: 001, 1T, 01, 000. */
  lemma InstructionStart(k: Codebook, i: Instruction)
    requires Usable(k)
    ensures var b := EncodeInstruction(k, i)[0];
      match i
      case SetTableCapacity(_) => b / 32 == 1
      case InsertNameRef(isStatic, _, _) => b / 64 == if isStatic then 3 else 2
      case InsertLiteral(_, _) => b / 64 == 1
      case DuplicateEntry(_) => b / 32 == 0
  {
    hide Encode, EncodeString, Pow2;
    SmallPowers();
    match i {
      case InsertNameRef(isStatic, index, _) =>
        assert EncodeInstruction(k, i)[0] == Encode(index, 6, if isStatic then 0xc0 else 0x80)[0];
      case InsertLiteral(name, _) =>
        assert EncodeInstruction(k, i)[0] == EncodeString(k.huffman, name, 5, 0x40, true)[0];
      case _ =>
    }
  }

  /** Instructions from Appendix B of RFC 9204. */
  lemma InstructionExamples(k: Codebook)
    requires Usable(k)
    ensures EncodeInstruction(k, SetTableCapacity(220)) == [0x3f, 0xbd, 0x01]
    ensures EncodeInstruction(k, DuplicateEntry(2)) == [0x02]
  {
    SmallPowers();
    assert EncodeGroups(189) == [0xbd, 0x01];
  }

  lemma TwoStringsStable(k: Codebook, data: bytes, n: nat, more: bytes)
    requires Usable(k) && n <= |data| && DecodeString(k.huffman, data[n..], 7) != Err(BufferTooShort)
    ensures DecodeString(k.huffman, (data + more)[n..], 7) == DecodeString(k.huffman, data[n..], 7)
  {
    hide DecodeString;
    assert (data + more)[n..] == data[n..] + more;
    StringStable(k.huffman, data[n..], 7, more);
  }

  /** Once an instruction can be read, or is known to be malformed, more octets change nothing. */
  lemma InstructionStable(k: Codebook, data: bytes, more: bytes)
    requires Usable(k) && DecodeInstruction(k, data) != Err(BufferTooShort)
    ensures DecodeInstruction(k, data + more) == DecodeInstruction(k, data)
  {
    hide Decode, DecodeString, Pow2;
    var whole := data + more;
    assert whole[0] == data[0];
    if data[0] / 128 % 2 == 1 {
      Stable(data, 6, more);
      if Decode(data, 6).Ok? {
        TwoStringsStable(k, data, Decode(data, 6).value.1, more);
      }
    } else if data[0] / 64 % 2 == 1 {
      StringStable(k.huffman, data, 5, more);
      if DecodeString(k.huffman, data, 5).Ok? {
        TwoStringsStable(k, data, DecodeString(k.huffman, data, 5).value.1, more);
      }
    } else {
      Stable(data, 5, more);
    }
  }

  /** A strict prefix of an instruction is never mistaken for one. */
  lemma PartialInstruction(k: Codebook, i: Instruction, part: bytes, more: bytes)
    requires Usable(k) && Sendable(i) && more != [] && part + more == EncodeInstruction(k, i)
    ensures DecodeInstruction(k, part) == Err(BufferTooShort)
  {
    hide DecodeInstruction, EncodeInstruction;
    InstructionRoundTrip(k, i, []);
    assert EncodeInstruction(k, i) + [] == EncodeInstruction(k, i);
    if DecodeInstruction(k, part) != Err(BufferTooShort) {
      InstructionStable(k, part, more);
    }
  }

  // ---- Fragmentation --------------------------------------------------------

  /** What a second chunk does after a first one has been drained. */
  ghost function Resume(k: Codebook, d: Drained, chunk: bytes, maxCapacity: nat): Drained
    requires Usable(k)
  {
    match d
    case Idle(done, t, buffer) => After(done, Drain(k, t, buffer + chunk, maxCapacity))
    case Broken(done, t, buffer, e) => Broken(done, t, buffer + chunk, e)
  }

  lemma ProcessStable(k: Codebook, t: Table, buffer: bytes, more: bytes, maxCapacity: nat)
    requires Usable(k)
    ensures !Process(k, t, buffer, maxCapacity).Waiting? ==>
      Process(k, t, buffer + more, maxCapacity) == Process(k, t, buffer, maxCapacity)
  {
    hide DecodeInstruction, Apply;
    if DecodeInstruction(k, buffer) != Err(BufferTooShort) {
      InstructionStable(k, buffer, more);
    }
  }

  lemma AfterAfter(a: seq<Instruction>, b: seq<Instruction>, d: Drained)
    ensures After(a, After(b, d)) == After(a + b, d)
    ensures After([], d) == d
  {
    assert a + (b + d.instructions) == a + b + d.instructions;
    assert [] + d.instructions == d.instructions;
  }

  /** Splitting the stream anywhere changes nothing: the instructions, the table, the
      octets left over and the error, if there is one, are those of a single delivery. */
  lemma {:induction false} SplitAnywhere(k: Codebook, t: Table, a: bytes, b: bytes, maxCapacity: nat)
    requires Usable(k)
    ensures Drain(k, t, a + b, maxCapacity) == Resume(k, Drain(k, t, a, maxCapacity), b, maxCapacity)
    decreases |a|
  {
    hide Process;
    ProcessStable(k, t, a, b, maxCapacity);
    match Process(k, t, a, maxCapacity) {
      case Waiting => AfterAfter([], [], Drain(k, t, a + b, maxCapacity));
      case Refused(_, n) => assert (a + b)[n..] == a[n..] + b;
      case Applied(i, next, n) =>
        assert (a + b)[n..] == a[n..] + b;
        SplitAnywhere(k, next, a[n..], b, maxCapacity);
        var d := Drain(k, next, a[n..], maxCapacity);
        if d.Idle? {
          AfterAfter([i], d.instructions, Drain(k, d.table, d.buffer + b, maxCapacity));
        }
    }
  }

  function Concat(chunks: seq<bytes>): bytes {
    if chunks == [] then [] else Concat(chunks[..|chunks| - 1]) + chunks[|chunks| - 1]
  }

  ghost function DrainChunks(k: Codebook, t: Table, chunks: seq<bytes>, maxCapacity: nat): Drained
    requires Usable(k)
  {
    if chunks == [] then Idle([], t, [])
    else Resume(k, DrainChunks(k, t, chunks[..|chunks| - 1], maxCapacity), chunks[|chunks| - 1], maxCapacity)
  }

  /** Any number of chunks, drained one by one, has the effect of one delivery. */
  lemma {:induction false} AnyFragmentation(k: Codebook, t: Table, chunks: seq<bytes>, maxCapacity: nat)
    requires Usable(k)
    ensures DrainChunks(k, t, chunks, maxCapacity) == Drain(k, t, Concat(chunks), maxCapacity)
  {
    hide Process, Resume;
    if chunks != [] {
      var n := |chunks| - 1;
      AnyFragmentation(k, t, chunks[..n], maxCapacity);
      SplitAnywhere(k, t, Concat(chunks[..n]), chunks[n], maxCapacity);
    } else {
      NothingToDrain(k, t, maxCapacity);
    }
  }

  lemma NothingToDrain(k: Codebook, t: Table, maxCapacity: nat)
    requires Usable(k)
    ensures Drain(k, t, [], maxCapacity) == Idle([], t, [])
  {
  }

  // ---- Replicas -------------------------------------------------------------

  /** The table a list of instructions builds, if all of them are accepted. */
  function Replay(k: Codebook, t: Table, instructions: seq<Instruction>, maxCapacity: nat): Option<Table>
    requires |k.fixed| == STATIC_TABLE_LEN
  {
    if instructions == [] then Some(t)
    else
      var before := Replay(k, t, instructions[..|instructions| - 1], maxCapacity);
      if before.None? then None
      else
        var r := Apply(k, before.value, instructions[|instructions| - 1], maxCapacity);
        if r.Ok? then Some(r.value) else None
  }

  /** The complete instructions at the front of some octets, and what is left behind them. */
  ghost function Instructions(k: Codebook, data: bytes): seq<Instruction>
    requires Usable(k)
    decreases |data|
  {
    match DecodeInstruction(k, data)
    case Err(_) => []
    case Ok((i, n)) => [i] + Instructions(k, data[n..])
  }

  ghost function Rest(k: Codebook, data: bytes): bytes
    requires Usable(k)
    decreases |data|
  {
    match DecodeInstruction(k, data)
    case Err(_) => data
    case Ok((_, n)) => Rest(k, data[n..])
  }

  /** What draining does with any octets: the instructions are applied in order up to the first one
      that the table refuses; without one, up to the last complete one, and it is an error only
      if what follows can be no instruction. */
  lemma {:induction false} DrainIsExact(k: Codebook, t: Table, buffer: bytes, maxCapacity: nat)
    requires Usable(k)
    ensures var (d, all) := (Drain(k, t, buffer, maxCapacity), Instructions(k, buffer));
      && d.instructions <= all && Replay(k, t, d.instructions, maxCapacity) == Some(d.table)
      && (d.instructions != all ==>
            var refused := Apply(k, d.table, all[|d.instructions|], maxCapacity);
            d.Broken? && refused.Err? && d.error == refused.error)
      && (d.Idle? <==> d.instructions == all && DecodeInstruction(k, Rest(k, buffer)) == Err(BufferTooShort))
      && (d.Idle? ==> d.buffer == Rest(k, buffer))
    decreases |buffer|
  {
    hide DecodeInstruction, Apply, DroppedOnError, Replay;
    var r := Process(k, t, buffer, maxCapacity);
    ReplayNothing(k, t, maxCapacity);
    if r.Applied? {
      var rest := buffer[r.consumed..];
      DrainIsExact(k, r.table, rest, maxCapacity);
      var d := Drain(k, r.table, rest, maxCapacity);
      var done := [r.instruction] + d.instructions;
      assert done[1..] == d.instructions;
      ReplayFirst(k, t, done, maxCapacity);
      assert done <= [r.instruction] + Instructions(k, rest);
      if d.instructions != Instructions(k, rest) {
        assert Instructions(k, buffer)[|done|] == Instructions(k, rest)[|d.instructions|];
      }
    }
  }

  lemma ReplayNothing(k: Codebook, t: Table, maxCapacity: nat)
    requires |k.fixed| == STATIC_TABLE_LEN
    ensures Replay(k, t, [], maxCapacity) == Some(t)
  {
  }

  function EncodeAll(k: Codebook, instructions: seq<Instruction>): bytes
    requires Usable(k)
  {
    if instructions == [] then []
    else EncodeInstruction(k, instructions[0]) + EncodeAll(k, instructions[1..])
  }

  lemma {:induction false} EncodeAllSnoc(k: Codebook, instructions: seq<Instruction>, i: Instruction)
    requires Usable(k)
    ensures EncodeAll(k, instructions + [i]) == EncodeAll(k, instructions) + EncodeInstruction(k, i)
  {
    hide EncodeInstruction;
    if instructions == [] {
      assert [] + [i] == [i] && [i][1..] == [];
    } else {
      assert (instructions + [i])[1..] == instructions[1..] + [i];
      EncodeAllSnoc(k, instructions[1..], i);
    }
  }

  lemma {:induction false} ReplayConcat(k: Codebook, t: Table, a: seq<Instruction>, b: seq<Instruction>,
                                        maxCapacity: nat)
    requires |k.fixed| == STATIC_TABLE_LEN
    ensures Replay(k, t, a + b, maxCapacity)
         == if Replay(k, t, a, maxCapacity).None? then None
             else Replay(k, Replay(k, t, a, maxCapacity).value, b, maxCapacity)
    decreases |b|
  {
    hide Apply;
    if b == [] {
      assert a + b == a;
    } else {
      var c := b[..|b| - 1];
      assert (a + b)[..|a + b| - 1] == a + c;
      ReplayConcat(k, t, a, c, maxCapacity);
    }
  }

  /** A receiver that gets any part of the stream of an accepted instruction list applies
      the instructions that are complete, keeps the octets of the next one, and never
      reports an error. The result is how many it applied. */
  lemma {:induction false} DrainsWhatArrived(k: Codebook, t: Table, instructions: seq<Instruction>, part: bytes,
                                             more: bytes,
                                             maxCapacity: nat) returns (n: nat)
    requires Usable(k) && (forall i :: i in instructions ==> Sendable(i))
    requires Replay(k, t, instructions, maxCapacity).Some?
    requires part + more == EncodeAll(k, instructions)
    ensures n <= |instructions| && Replay(k, t, instructions[..n], maxCapacity).Some?
    ensures var d := Drain(k, t, part, maxCapacity);
      && d.Idle? && d.instructions == instructions[..n]
      && d.table == Replay(k, t, instructions[..n], maxCapacity).value
      && d.buffer + more == EncodeAll(k, instructions[n..])
    decreases |instructions|
  {
    hide DecodeInstruction, EncodeInstruction, Apply, Sendable, Process;
    if instructions == [] {
      NothingToDrain(k, t, maxCapacity);
      return 0;
    }
    var i, rest := instructions[0], instructions[1..];
    var code := EncodeInstruction(k, i);
    if |part| < |code| {
      TakesLess(part, more, code, EncodeAll(k, rest));
      PartialInstruction(k, i, part, code[|part|..]);
      StaysIdle(k, t, part, maxCapacity);
      assert instructions[..0] == [] && instructions[0..] == instructions;
      return 0;
    }
    var tail := part[|code|..];
    TakesMore(part, more, code, EncodeAll(k, rest));
    ReplayFirst(k, t, instructions, maxCapacity);
    AppliesFirst(k, t, i, tail, maxCapacity);
    var next := Apply(k, t, i, maxCapacity).value;
    var m := DrainsWhatArrived(k, next, rest, tail, more, maxCapacity);
    n := m + 1;
    assert instructions[..n][0] == i && instructions[..n][1..] == rest[..m] && instructions[n..] == rest[m..];
    ReplayFirst(k, t, instructions[..n], maxCapacity);
  }

  lemma TakesLess(part: bytes, more: bytes, code: bytes, others: bytes)
    requires part + more == code + others && |part| < |code|
    ensures part + code[|part|..] == code
  {
    assert (part + more)[..|part|] == part;
  }

  lemma TakesMore(part: bytes, more: bytes, code: bytes, others: bytes)
    requires part + more == code + others && |code| <= |part|
    ensures part == code + part[|code|..] && part[|code|..] + more == others
  {
    assert (part + more)[..|code|] == code;
    assert (part + more)[|code|..] == part[|code|..] + more;
    assert (code + others)[|code|..] == others;
  }

  lemma StaysIdle(k: Codebook, t: Table, part: bytes, maxCapacity: nat)
    requires Usable(k) && DecodeInstruction(k, part) == Err(BufferTooShort)
    ensures Drain(k, t, part, maxCapacity) == Idle([], t, part)
  {
    hide DecodeInstruction;
  }

  lemma AppliesFirst(k: Codebook, t: Table, i: Instruction, tail: bytes, maxCapacity: nat)
    requires Usable(k) && Sendable(i) && Apply(k, t, i, maxCapacity).Ok?
    ensures Drain(k, t, EncodeInstruction(k, i) + tail, maxCapacity)
         == After([i], Drain(k, Apply(k, t, i, maxCapacity).value, tail, maxCapacity))
  {
    hide DecodeInstruction, EncodeInstruction, Apply, Sendable;
    InstructionRoundTrip(k, i, tail);
    var code := EncodeInstruction(k, i);
    assert (code + tail)[|code|..] == tail;
  }

  lemma ReplayFirst(k: Codebook, t: Table, instructions: seq<Instruction>, maxCapacity: nat)
    requires |k.fixed| == STATIC_TABLE_LEN && instructions != []
    ensures var first := Apply(k, t, instructions[0], maxCapacity);
      Replay(k, t, instructions, maxCapacity)
      == if first.Ok? then Replay(k, first.value, instructions[1..], maxCapacity) else None
  {
    hide Apply;
    assert instructions == [instructions[0]] + instructions[1..];
    ReplayConcat(k, t, [instructions[0]], instructions[1..], maxCapacity);
    ReplayOne(k, t, instructions[0], maxCapacity);
  }

  lemma ReplayOne(k: Codebook, t: Table, i: Instruction, maxCapacity: nat)
    requires |k.fixed| == STATIC_TABLE_LEN
    ensures Replay(k, t, [i], maxCapacity)
         == if Apply(k, t, i, maxCapacity).Ok? then Some(Apply(k, t, i, maxCapacity).value) else None
  {
    hide Apply;
    assert [i][..0] == [];
  }
}
