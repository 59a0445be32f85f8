/** The invariant of the QPACK state machine. */
module QpackInvariant {
  import opened Bytes
  import opened Fields
  import opened FieldLines
  import opened FieldSection
  import opened InsertCount
  import opened PrefixInteger
  import opened TableModel
  import opened EncoderModel
  import opened QpackSystem
  import E = EncoderInstructions
  import D = DecoderInstructions

  /** A section in flight: its octets, the fields it stands for, its count, and the table
      it was written against. */
  datatype Flight = Flight(data: bytes, fields: seq<Field>, ric: nat, writer: Table)

  /** A report in flight; an acknowledgment remembers the count of its section. */
  datatype Pending = Pending(report: D.Report, ric: nat)

  /** History that the octets on the wire stand for. */
  datatype History = History(
    instructions: seq<E.Instruction>,   // all that were ever emitted
    applied: nat,                       // how many of them the decoder has applied
    pending: seq<Pending>,              // reports the encoder has not read
    flights: map<nat, seq<Flight>>
  )

  // ---- Sections -------------------------------------------------------------

  ghost predicate Reaches(c: Config, f: Flight, reader: Table) {
    && (f.ric > 0 ==> MaxEntries(c.maxCapacity) > 0 && InWindow(f.ric, |reader.log|, MaxEntries(c.maxCapacity)))
    && (0 < f.ric <= |reader.log| ==> Covers(reader, f.writer, f.ric))
  }

  ghost predicate Reads(c: Config, f: Flight, reader: Table)
    requires Agreed(c)
  {
    && CountOf(f.data, |reader.log|, c.maxCapacity) == Ok(f.ric)
    && DecodeSection(c.book, reader, f.data, c.maxCapacity, c.maxSize)
       == if |reader.log| < f.ric then Blocked else Decoded(f.fields)
  }

  ghost predicate Readable(c: Config, f: Flight)
    requires Agreed(c)
  {
    forall reader: Table :: Reaches(c, f, reader) ==> Reads(c, f, reader)
  }

  /** The encoder still holds what the section refers to. */
  ghost predicate Protected(c: Config, t: Table, known: nat, f: Flight) {
    f.ric > 0 ==>
      && f.writer.log <= t.log && f.writer.dropped == t.dropped
      && f.ric <= |f.writer.log| && t.dropped < f.ric
      && f.ric <= known + MaxEntries(c.maxCapacity)
  }

  function Counts(flights: seq<Flight>): seq<nat> {
    if flights == [] then []
    else if flights[0].ric > 0 then [flights[0].ric] + Counts(flights[1..]) else Counts(flights[1..])
  }

  // ---- Reports --------------------------------------------------------------

  /** What is left of a stream's outstanding counts once `pending` has been read; None when
      an acknowledgment would not match the oldest section. */
  function Settle(counts: seq<nat>, pending: seq<Pending>, stream: nat): Option<seq<nat>>
    decreases |pending|
  {
    if pending == [] then Some(counts)
    else
      var next := SettleOne(counts, pending[0], stream);
      if next.None? then None else Settle(next.value, pending[1..], stream)
  }

  function SettleOne(counts: seq<nat>, p: Pending, stream: nat): Option<seq<nat>> {
    match p.report
    case SectionAck(s) =>
      if s != stream then Some(counts) else if counts == [] || counts[0] != p.ric then None else Some(counts[1..])
    case StreamCancel(s) => Some(if s == stream then [] else counts)
    case CountIncrement(_) => Some(counts)
  }

  function SumIncrements(pending: seq<Pending>): nat {
    if pending == [] then 0
    else (if pending[0].report.CountIncrement? then pending[0].report.increment else 0) + SumIncrements(pending[1..])
  }

  function Reports(pending: seq<Pending>): (r: seq<D.Report>)
    ensures |r| == |pending| && forall i :: 0 <= i < |r| ==> r[i] == pending[i].report
  {
    seq(|pending|, i requires 0 <= i < |pending| => pending[i].report)
  }

  predicate GoodReport(p: Pending, inserts: nat) {
    && D.Number(p.report) <= MAX_VALUE
    && (p.report.CountIncrement? ==> p.report.increment > 0)
    && (p.report.SectionAck? ==> p.ric <= inserts)
  }

  predicate Cancelled(pending: seq<Pending>, stream: nat) {
    exists i :: 0 <= i < |pending| && pending[i].report == D.StreamCancel(stream)
  }

  // ---- The invariant --------------------------------------------------------

  ghost predicate EncoderInv(c: Config, e: Encoder) {
    && Sound(e)
    && e.maxCapacity == c.maxCapacity && e.peerMaxBlocked == c.maxBlocked && e.useHuffman == c.useHuffman
    && e.table.capacity == c.capacity
  }

  /** Both tables are replays of the same instructions, the decoder's of a prefix; the
      octets between them spell the rest. */
  ghost predicate ReplicaInv(c: Config, t: Table, dec: Table, octets: bytes, instructions: seq<E.Instruction>,
                             applied: nat)
    requires Agreed(c)
  {
    && applied <= |instructions|
    && (forall i :: i in instructions ==> E.Sendable(i))
    && E.Replay(c.book, EMPTY, instructions, c.maxCapacity) == Some(SetLimit(t, 0))
    && E.Replay(c.book, EMPTY, instructions[..applied], c.maxCapacity) == Some(dec)
    && octets == E.EncodeAll(c.book, instructions[applied..])
  }

  ghost predicate ReportInv(e: Encoder, known: nat, inserts: nat, told: nat, octets: bytes, pending: seq<Pending>) {
    && octets == D.EncodeAll(Reports(pending))
    && (forall i :: 0 <= i < |pending| ==> GoodReport(pending[i], inserts))
    && known + SumIncrements(pending) == told <= inserts
    && e.known <= inserts
  }

  datatype StreamView = StreamView(
    counts: seq<nat>,
    flights: seq<Flight>,
    sections: seq<bytes>,
    sent: seq<seq<Field>>,
    delivered: seq<seq<Field>>,
    abandoned: bool
  )

  function View(s: System, h: History, stream: nat): StreamView {
    StreamView(Of(s.enc.unacked, stream), At(h.flights, stream), At(s.sections, stream),
               At(s.sent, stream), At(s.delivered, stream), stream in s.abandoned)
  }

  function Datas(flights: seq<Flight>): (r: seq<bytes>)
    ensures |r| == |flights| && forall i :: 0 <= i < |r| ==> r[i] == flights[i].data
  {
    seq(|flights|, i requires 0 <= i < |flights| => flights[i].data)
  }

  function Payloads(flights: seq<Flight>): (r: seq<seq<Field>>)
    ensures |r| == |flights| && forall i :: 0 <= i < |r| ==> r[i] == flights[i].fields
  {
    seq(|flights|, i requires 0 <= i < |flights| => flights[i].fields)
  }

  ghost predicate FlightsOk(c: Config, t: Table, known: nat, flights: seq<Flight>)
    requires Agreed(c)
  {
    forall i :: 0 <= i < |flights| ==> Readable(c, flights[i]) && Protected(c, t, known, flights[i])
  }

  /** What is sent is what is delivered plus what is in flight, and the encoder's bookkeeping
      will agree with what is in flight once it has read all reports. */
  ghost predicate StreamOk(c: Config, t: Table, known: nat, pending: seq<Pending>, stream: nat, v: StreamView)
    requires Agreed(c)
  {
    if v.abandoned then
      Settle(v.counts, pending, stream).Some? && v.delivered <= v.sent
    else
      && (v.flights != [] ==> stream <= MAX_VALUE)
      && !Cancelled(pending, stream)
      && Settle(v.counts, pending, stream) == Some(Counts(v.flights))
      && v.sections == Datas(v.flights)
      && v.sent == v.delivered + Payloads(v.flights)
      && FlightsOk(c, t, known, v.flights)
  }

  ghost predicate StreamsInv(c: Config, s: System, h: History)
    requires Agreed(c)
  {
    forall stream: nat :: StreamOk(c, s.enc.table, s.enc.known, h.pending, stream, View(s, h, stream))
  }

  /** A blocked stream waits for the count of its oldest section. */
  ghost predicate BlockedInv(s: System, h: History) {
    forall stream :: stream in s.blocked ==>
      stream !in s.abandoned && At(h.flights, stream) != [] && s.blocked[stream] == At(h.flights, stream)[0].ric > 0
  }

  ghost predicate Inv(c: Config, s: System, h: History)
    requires Agreed(c)
  {
    && !s.failed
    && EncoderInv(c, s.enc)
    && ReplicaInv(c, s.enc.table, s.dec, s.instrBuffer + s.instrWire, h.instructions, h.applied)
    && ReportInv(s.enc, s.known, |s.dec.log|, s.told, s.reportBuffer + s.reportWire, h.pending)
    && StreamsInv(c, s, h)
    && BlockedInv(s, h)
  }
}
