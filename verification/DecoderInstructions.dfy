/** The instructions of the decoder stream (section 4.4 of RFC 9204) and how the encoder's
    side drains them into its bookkeeping. */
module DecoderInstructions {
  import opened Bytes
  import opened EncoderModel
  import opened FieldLines
  import opened PrefixInteger

  datatype Report =
    | SectionAck(stream: nat)
    | StreamCancel(stream: nat)
    | CountIncrement(increment: nat)

  function EncodeReport(r: Report): (b: bytes)
    ensures |b| >= 1
  {
    SmallPowers();
    match r
    case SectionAck(stream) => Encode(stream, 7, 0x80)
    case StreamCancel(stream) => Encode(stream, 6, 0x40)
    case CountIncrement(increment) => Encode(increment, 6, 0)
  }

  function Number(r: Report): nat {
    match r
    case SectionAck(stream) => stream
    case StreamCancel(stream) => stream
    case CountIncrement(increment) => increment
  }

  function DecodeReport(data: bytes): (r: Result<(Report, nat)>)
    ensures r.Ok? ==> 1 <= r.value.1 <= |data|
  {
    if data == [] then Err(BufferTooShort)
    else if data[0] / 128 % 2 == 1 then
      var (stream, n) :- Decode(data, 7);
      Ok((SectionAck(stream), n))
    else
      var (v, n) :- Decode(data, 6);
      Ok((if data[0] / 64 % 2 == 1 then StreamCancel(v) else CountIncrement(v), n))
  }

  datatype Received = Waiting | Got(report: Report, known: nat, consumed: nat) | Refused(error: QpackError)

  /** One call of `process`. `known` is the receiver's own count, which only increments
      move; an increment of nothing, or past what was ever sent, is an error. */
  function Receive(buffer: bytes, known: nat, inserts: nat): (r: Received)
    ensures r.Got? ==> 1 <= r.consumed <= |buffer|
    ensures r.Got? ==> r.known == if r.report.CountIncrement? then known + r.report.increment else known
    ensures r.Got? && r.report.CountIncrement? ==> r.report.increment > 0 && r.known <= inserts
  {
    match DecodeReport(buffer)
    case Err(e) => if e == BufferTooShort then Waiting else Refused(e)
    case Ok((report, n)) =>
      if report.CountIncrement? then
        if report.increment == 0 || known + report.increment > inserts then Refused(DecodeFailed)
        else Got(report, known + report.increment, n)
      else Got(report, known, n)
  }

  /** What a report does to the encoder. */
  ghost function Obey(e: Encoder, report: Report, known: nat): Result<Encoder> {
    match report
    case CountIncrement(_) => Ok(Acknowledge(e, known))
    case SectionAck(stream) => AckSection(e, stream)
    case StreamCancel(stream) => Ok(CancelStream(e, stream))
  }

  datatype Drained =
    | Idle(encoder: Encoder, known: nat, buffer: bytes)
    | Broken(encoder: Encoder, known: nat, buffer: bytes, error: QpackError)

  /** `process_decoder_stream`: the insert count is read once, before the loop. */
  ghost function Drain(e: Encoder, known: nat, buffer: bytes, inserts: nat): Drained
    decreases |buffer|
  {
    match Receive(buffer, known, inserts)
    case Waiting => Idle(e, known, buffer)
    case Refused(error) => Broken(e, known, buffer, error)
    case Got(report, next, n) =>
      match Obey(e, report, next)
      case Err(error) => Broken(e, next, buffer[n..], error)
      case Ok(f) => Drain(f, next, buffer[n..], inserts)
  }

  // ---- Round trip -----------------------------------------------------------

  lemma ReportRoundTrip(r: Report, rest: bytes)
    requires Number(r) <= MAX_VALUE
    ensures DecodeReport(EncodeReport(r) + rest) == Ok((r, |EncodeReport(r)|))
  {
    hide Decode, Encode, Pow2;
    SmallPowers();
    var bits: PrefixBits := if r.SectionAck? then 7 else 6;
    var flag := if r.SectionAck? then 0x80 else if r.StreamCancel? then 0x40 else 0;
    RoundTrip(Number(r), bits, flag, rest);
    var data := EncodeReport(r) + rest;
    assert data[0] == Encode(Number(r), bits, flag)[0];
    assert data[0] as nat / Pow2(bits) == flag / Pow2(bits);
  }

  /** The patterns of section 4.4 of RFC 9204, 1, 01 and 00, with the examples of its Appendix B. */
  lemma ReportStart(r: Report)
    ensures var b := EncodeReport(r)[0];
      match r
      case SectionAck(_) => b / 128 == 1
      case StreamCancel(_) => b / 64 == 1
      case CountIncrement(_) => b / 64 == 0
    ensures EncodeReport(SectionAck(4)) == [0x84] && EncodeReport(StreamCancel(8)) == [0x48]
    ensures EncodeReport(CountIncrement(1)) == [0x01]
  {
    SmallPowers();
  }

  lemma ReportStable(data: bytes, more: bytes)
    requires DecodeReport(data) != Err(BufferTooShort)
    ensures DecodeReport(data + more) == DecodeReport(data)
  {
    hide Decode, Pow2;
    assert (data + more)[0] == data[0];
    Stable(data, if data[0] / 128 % 2 == 1 then 7 else 6, more);
  }

  lemma PartialReport(r: Report, part: bytes, more: bytes)
    requires Number(r) <= MAX_VALUE && more != [] && part + more == EncodeReport(r)
    ensures DecodeReport(part) == Err(BufferTooShort)
  {
    hide DecodeReport, EncodeReport;
    ReportRoundTrip(r, []);
    assert EncodeReport(r) + [] == EncodeReport(r);
    if DecodeReport(part) != Err(BufferTooShort) {
      ReportStable(part, more);
    }
  }

  /** Splitting the decoder stream anywhere changes nothing either. */
  ghost function Resume(d: Drained, chunk: bytes, inserts: nat): Drained {
    match d
    case Idle(e, known, buffer) => Drain(e, known, buffer + chunk, inserts)
    case Broken(e, known, buffer, error) => Broken(e, known, buffer + chunk, error)
  }

  lemma ReceiveStable(buffer: bytes, known: nat, inserts: nat, more: bytes)
    ensures !Receive(buffer, known, inserts).Waiting?
        ==> Receive(buffer + more, known, inserts) == Receive(buffer, known, inserts)
  {
    hide DecodeReport;
    if DecodeReport(buffer) != Err(BufferTooShort) {
      ReportStable(buffer, more);
    }
  }

  lemma {:induction false} SplitAnywhere(e: Encoder, known: nat, a: bytes, b: bytes, inserts: nat)
    ensures Drain(e, known, a + b, inserts) == Resume(Drain(e, known, a, inserts), b, inserts)
    decreases |a|
  {
    hide Receive, Obey;
    ReceiveStable(a, known, inserts, b);
    var r := Receive(a, known, inserts);
    if r.Got? {
      assert (a + b)[r.consumed..] == a[r.consumed..] + b;
      var f := Obey(e, r.report, r.known);
      if f.Ok? {
        SplitAnywhere(f.value, r.known, a[r.consumed..], b, inserts);
      }
    }
  }

  function EncodeAll(reports: seq<Report>): bytes {
    if reports == [] then [] else EncodeReport(reports[0]) + EncodeAll(reports[1..])
  }

  lemma {:induction false} EncodeAllSnoc(reports: seq<Report>, r: Report)
    ensures EncodeAll(reports + [r]) == EncodeAll(reports) + EncodeReport(r)
  {
    hide EncodeReport;
    if reports == [] {
      assert [] + [r] == [r] && [r][1..] == [];
    } else {
      assert (reports + [r])[1..] == reports[1..] + [r];
      EncodeAllSnoc(reports[1..], r);
    }
  }
}
