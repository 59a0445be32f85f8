/** One direction of a QPACK connection as a state machine: an encoder, a decoder, and the
    three kinds of stream between them, whose octets arrive in any order across streams. */
module QpackSystem {
  import opened Bytes
  import opened Fields
  import opened FieldLines
  import opened FieldSection
  import opened InsertCount
  import opened PrefixInteger
  import opened TableModel
  import opened EncoderModel
  import E = EncoderInstructions
  import D = DecoderInstructions

  /** What the SETTINGS exchange fixes for the whole connection. */
  datatype Config = Config(
    book: Codebook,
    maxCapacity: nat,  // SETTINGS_QPACK_MAX_TABLE_CAPACITY of the decoder
    capacity: nat,     // the capacity the encoder chose, once
    maxBlocked: nat,   // SETTINGS_QPACK_BLOCKED_STREAMS of the decoder
    maxSize: nat,      // the decoder's field section size limit
    useHuffman: bool
  )

  ghost predicate Agreed(c: Config) {
    Usable(c.book) && c.capacity <= c.maxCapacity <= MAX_VALUE && c.maxSize <= MAX_VALUE
  }

  datatype System = System(
    enc: Encoder,
    known: nat,                       // the decoder-stream receiver's own count
    reportBuffer: bytes,              // received on the decoder stream, not yet read
    reportWire: bytes,                // in flight on the decoder stream
    dec: Table,
    instrBuffer: bytes,               // received on the encoder stream, not yet read
    instrWire: bytes,                 // in flight on the encoder stream
    sections: map<nat, seq<bytes>>,   // by request stream: not yet decoded, oldest first
    blocked: map<nat, nat>,           // blocked streams and the counts they wait for
    told: nat,                        // insertions the decoder has reported by increments
    abandoned: set<nat>,              // streams that were reset
    sent: map<nat, seq<seq<Field>>>,
    delivered: map<nat, seq<seq<Field>>>,
    failed: bool                      // some connection error was raised
  )

  function At<T>(m: map<nat, seq<T>>, stream: nat): seq<T> {
    if stream in m then m[stream] else []
  }

  function Push<T>(m: map<nat, seq<T>>, stream: nat, x: T): map<nat, seq<T>> {
    m[stream := At(m, stream) + [x]]
  }

  function Forget(blocked: map<nat, nat>, stream: nat): map<nat, nat> {
    map s | s in blocked && s != stream :: blocked[s]
  }

  function FirstInstructions(c: Config): seq<E.Instruction> {
    if c.capacity > 0 then [E.SetTableCapacity(c.capacity)] else []
  }

  ghost function Init(c: Config): System
    requires Agreed(c)
  {
    System(Encoder(EMPTY.(capacity := c.capacity), c.useHuffman, c.maxCapacity, 0, c.maxBlocked, map[]), 0, [], [],
           EMPTY, [], E.EncodeAll(c.book, FirstInstructions(c)), map[], map[], 0, {}, map[], map[], false)
  }

  datatype Step =
    | InsertEntry(i: E.Instruction, f: Field)
    | SendSection(stream: nat, headers: seq<Header>)
    | DeliverInstructions(n: nat)
    | DeliverSection(stream: nat)
    | RetrySection(stream: nat)
    | ReportInserts(n: nat)
    | ResetStream(stream: nat)
    | DeliverReports(n: nat)

  /** What the callers on both sides, and the network, may do next.

      An insertion is made by a caller that inserts a field of its own and emits an instruction
      that names it; it emits nothing when the table refuses. A section is only sent when its count is within
      one table's worth of the Known Received Count and its size within the peer's limit. */
  ghost predicate Enabled(c: Config, s: System, step: Step)
    requires Agreed(c)
  {
    !s.failed &&
    match step
    case InsertEntry(i, f) => E.Names(c.book, s.enc.table, i, f) && Insert(s.enc.table, f).1.Some?
    case SendSection(stream, headers) =>
      stream <= MAX_VALUE && SizeOf(FieldsOf(headers)) <= c.maxSize
      && SectionCountFor(s.enc, headers, |s.enc.unacked|) <= s.enc.known + MaxEntries(c.maxCapacity)
    case DeliverInstructions(n) => n <= |s.instrWire|
    case DeliverSection(stream) => stream !in s.abandoned && stream !in s.blocked && At(s.sections, stream) != []
    case RetrySection(stream) => stream in s.blocked && s.blocked[stream] <= |s.dec.log| && At(s.sections, stream) != []
    case ReportInserts(n) => n > 0 && s.told + n <= |s.dec.log| && n <= MAX_VALUE
    case ResetStream(stream) => stream !in s.abandoned && stream <= MAX_VALUE
    case DeliverReports(n) => n <= |s.reportWire|
  }

  ghost function Next(c: Config, s: System, step: Step): System
    requires Agreed(c) && Enabled(c, s, step)
  {
    match step
    case InsertEntry(i, f) =>
      s.(enc := Do(s.enc, DoInsert(f)),
         instrWire := s.instrWire + E.EncodeInstruction(c.book, i))
    case SendSection(stream, headers) =>
      s.(enc := Do(s.enc, DoSend(stream, headers)),
         sections := Push(s.sections, stream, SectionFor(c.book, s.enc, headers, |s.enc.unacked|)),
         sent := Push(s.sent, stream, FieldsOf(headers)))
    case DeliverInstructions(n) =>
      var d := E.Drain(c.book, s.dec, s.instrBuffer + s.instrWire[..n], c.maxCapacity);
      s.(dec := d.table, instrBuffer := d.buffer, instrWire := s.instrWire[n..], failed := d.Broken?)
    case DeliverSection(stream) => Decode(c, s, stream, c.maxBlocked)
    case RetrySection(stream) => Decode(c, s.(blocked := Forget(s.blocked, stream)), stream, |s.blocked|)
    case ReportInserts(n) =>
      s.(told := s.told + n, reportWire := s.reportWire + D.EncodeReport(D.CountIncrement(n)))
    case ResetStream(stream) =>
      s.(abandoned := s.abandoned + {stream}, blocked := Forget(s.blocked, stream),
         sections := s.sections[stream := []],
         reportWire := if c.maxCapacity == 0 then s.reportWire
             else s.reportWire + D.EncodeReport(D.StreamCancel(stream)))
    case DeliverReports(n) =>
      var d := D.Drain(s.enc, s.known, s.reportBuffer + s.reportWire[..n], |s.enc.table.log|);
      s.(enc := d.encoder, known := d.known, reportBuffer := d.buffer, reportWire := s.reportWire[n..],
         failed := d.Broken?)
  }

  /** Decodes the oldest section of a stream. A section with a count is acknowledged; a
      blocked one stays, unless `maxBlocked` streams are blocked already: that is an error.
      (A retry takes its own stream's place and so never meets the bound.) */
  ghost function Decode(c: Config, s: System, stream: nat, maxBlocked: nat): System
    requires Agreed(c) && At(s.sections, stream) != []
  {
    var data := At(s.sections, stream)[0];
    var count := CountOf(data, |s.dec.log|, c.maxCapacity);
    match DecodeSection(c.book, s.dec, data, c.maxCapacity, c.maxSize)
    case Failed(_) => s.(failed := true)
    case Blocked =>
      if |s.blocked| >= maxBlocked || count.Err? then s.(failed := true)
      else s.(blocked := s.blocked[stream := count.value])
    case Decoded(fields) =>
      s.(sections := s.sections[stream := At(s.sections, stream)[1..]],
         delivered := Push(s.delivered, stream, fields),
         reportWire := if count.Ok? && count.value > 0 then s.reportWire + D.EncodeReport(D.SectionAck(stream))
             else s.reportWire)
  }

  /** `run` lists the states of an execution that takes `steps`. */
  ghost predicate IsRun(c: Config, run: seq<System>, steps: seq<Step>)
    requires Agreed(c)
  {
    && |run| == |steps| + 1
    && run[0] == Init(c)
    && forall i {:trigger steps[i]} :: 0 <= i < |steps| ==>
        Enabled(c, run[i], steps[i]) && run[i + 1] == Next(c, run[i], steps[i])
  }
}
