/** The steps of the QPACK state machine that involve the decoder stream. */
module QpackReports {
  import opened Bytes
  import opened Fields
  import opened FieldLines
  import opened FieldSection
  import opened InsertCount
  import opened PrefixInteger
  import opened TableModel
  import opened EncoderModel
  import opened QpackSystem
  import opened QpackInvariant
  import opened QpackReplica
  import opened QpackSteps
  import E = EncoderInstructions
  import D = DecoderInstructions

  lemma ReportInsertsInv(c: Config, s: System, h: History, n: nat) returns (g: History)
    requires Agreed(c) && Inv(c, s, h) && Enabled(c, s, ReportInserts(n))
    ensures Inv(c, Next(c, s, ReportInserts(n)), g) && g.instructions == h.instructions
  {
    hide ReplicaInv, ReportInv, EncoderInv, StreamOk, BlockedInv;
    var s2, p := Next(c, s, ReportInserts(n)), Pending(D.CountIncrement(n), 0);
    g := h.(pending := h.pending + [p]);
    ReportSent(s.enc, s.known, |s.dec.log|, s.told, s.told + n, s.reportBuffer + s.reportWire, h.pending, p);
    assert s2.reportBuffer + s2.reportWire == s.reportBuffer + s.reportWire + D.EncodeReport(p.report);
    BlockedFrame(s, h, s2, g);
    forall st: nat
      ensures StreamOk(c, s2.enc.table, s2.enc.known, g.pending, st, View(s2, g, st))
    {
      assert StreamOk(c, s.enc.table, s.enc.known, h.pending, st, View(s, h, st));
      assert View(s2, g, st) == View(s, h, st);
      OtherStreams(c, s.enc.table, s.enc.known, h.pending, p, st, View(s, h, st));
    }
  }

  // ---- Resets -----------------------------------------------------------------

  lemma AbandonedStream(c: Config, t: Table, known: nat, pending: seq<Pending>, stream: nat, v: StreamView, p: Pending,
                        cancel: bool)
    requires Agreed(c) && StreamOk(c, t, known, pending, stream, v) && p.report == D.StreamCancel(stream)
    ensures StreamOk(c, t, known, if cancel then pending + [p] else pending, stream,
                     v.(sections := [], abandoned := true))
  {
    hide Settle, Cancelled, FlightsOk;
    SettleLast(v.counts, pending, p, stream);
  }

  lemma ResetInv(c: Config, s: System, h: History, stream: nat) returns (g: History)
    requires Agreed(c) && Inv(c, s, h) && Enabled(c, s, ResetStream(stream))
    ensures Inv(c, Next(c, s, ResetStream(stream)), g) && g.instructions == h.instructions
  {
    hide ReplicaInv, ReportInv, EncoderInv, StreamOk, BlockedInv;
    var s2, p := Next(c, s, ResetStream(stream)), Pending(D.StreamCancel(stream), 0);
    g := if c.maxCapacity == 0 then h else h.(pending := h.pending + [p]);
    if c.maxCapacity > 0 {
      ReportSent(s.enc, s.known, |s.dec.log|, s.told, s.told, s.reportBuffer + s.reportWire, h.pending, p);
      assert s2.reportBuffer + s2.reportWire == s.reportBuffer + s.reportWire + D.EncodeReport(p.report);
    }
    ResetBlocked(s, h, s2, g, stream);
    forall st: nat
      ensures StreamOk(c, s2.enc.table, s2.enc.known, g.pending, st, View(s2, g, st))
    {
      assert StreamOk(c, s.enc.table, s.enc.known, h.pending, st, View(s, h, st));
      if st == stream {
        assert View(s2, g, st) == View(s, h, st).(sections := [], abandoned := true);
        AbandonedStream(c, s.enc.table, s.enc.known, h.pending, st, View(s, h, st), p, c.maxCapacity > 0);
      } else {
        assert View(s2, g, st) == View(s, h, st);
        OtherStreams(c, s.enc.table, s.enc.known, h.pending, p, st, View(s, h, st));
      }
    }
  }

  lemma ResetBlocked(s: System, h: History, s2: System, g: History, stream: nat)
    requires BlockedInv(s, h) && g.flights == h.flights
    requires s2.blocked == Forget(s.blocked, stream) && s2.abandoned == s.abandoned + {stream}
    ensures BlockedInv(s2, g)
  {
  }

  // ---- Reading reports ----------------------------------------------------------

  /** The effect of a report on the encoder, stream by stream: it settles one count, moves
      the eviction limit, and may raise the Known Received Count. */
  lemma ObeyEffect(c: Config, e: Encoder, p: Pending, known: nat, inserts: nat, st: nat)
    requires EncoderInv(c, e) && known <= inserts <= |e.table.log|
    requires GoodReport(p, inserts) && e.known <= inserts
    requires p.report.SectionAck? ==> SettleOne(Of(e.unacked, p.report.stream), p, p.report.stream).Some?
    ensures D.Obey(e, p.report, known).Ok?
    ensures var r := D.Obey(e, p.report, known).value;
      && EncoderInv(c, r) && r.table == SetLimit(e.table, r.table.limit)
      && e.known <= r.known <= inserts
      && (SettleOne(Of(e.unacked, st), p, st).Some? ==> Some(Of(r.unacked, st)) == SettleOne(Of(e.unacked, st), p, st))
  {
    hide Limit, IsLimit, Size, Sound;
    match p.report {
      case SectionAck(stream) => DoSound(e, DoAck(stream));
      case StreamCancel(stream) => DoSound(e, DoCancel(stream));
      case CountIncrement(_) => DoSound(e, DoAcknowledge(known));
    }
  }

  lemma ReceiveReport(p: Pending, buffer: bytes, rest: bytes, known: nat, inserts: nat)
    requires GoodReport(p, inserts) && buffer == D.EncodeReport(p.report) + rest
    requires p.report.CountIncrement? ==> known + p.report.increment <= inserts
    ensures var next := if p.report.CountIncrement? then known + p.report.increment else known;
      D.Receive(buffer, known, inserts) == D.Got(p.report, next, |D.EncodeReport(p.report)|)
  {
    hide D.DecodeReport, D.EncodeReport;
    D.ReportRoundTrip(p.report, rest);
  }

  lemma SettledStream(c: Config, t: Table, known: nat, t2: Table, known2: nat, pending: seq<Pending>, stream: nat,
                      v: StreamView,
                      counts: seq<nat>)
    requires Agreed(c) && pending != [] && StreamOk(c, t, known, pending, stream, v)
    requires t2 == SetLimit(t, t2.limit) && known <= known2
    requires SettleOne(v.counts, pending[0], stream).Some? ==> Some(counts) == SettleOne(v.counts, pending[0], stream)
    ensures SettleOne(v.counts, pending[0], stream).Some?
    ensures StreamOk(c, t2, known2, pending[1..], stream, v.(counts := counts))
  {
    hide FlightsOk, Counts;
    if !v.abandoned {
      ProtectedFrame(c, t, known, t2, known2, v.flights);
      forall i | 0 <= i < |pending[1..]|
        ensures pending[1..][i].report != D.StreamCancel(stream)
      {
        assert pending[1..][i] == pending[i + 1];
      }
    }
  }

  lemma ReportTaken(e: Encoder, known: nat, inserts: nat, told: nat, octets: bytes, pending: seq<Pending>, e2: Encoder,
                    rest: bytes)
    requires ReportInv(e, known, inserts, told, octets, pending) && pending != []
    requires octets == D.EncodeReport(pending[0].report) + rest && e2.known <= inserts
    ensures var next := if pending[0].report.CountIncrement? then known + pending[0].report.increment else known;
      ReportInv(e2, next, inserts, told, rest, pending[1..]) && next <= inserts
  {
    hide D.EncodeAll, D.EncodeReport, Reports;
    ReportsTail(pending);
    assert octets[|D.EncodeReport(pending[0].report)|..] == rest;
  }

  /** The head report is read: the state with it taken off the buffer. */
  lemma TakeReport(c: Config, s: System, h: History, rest: bytes) returns (s2: System)
    requires Agreed(c) && Inv(c, s, h) && h.pending != []
    requires s.reportBuffer == D.EncodeReport(h.pending[0].report) + rest
    ensures var p := h.pending[0];
      var next := if p.report.CountIncrement? then s.known + p.report.increment else s.known;
      && D.Receive(s.reportBuffer, s.known, |s.enc.table.log|) == D.Got(p.report, next, |D.EncodeReport(p.report)|)
      && D.Obey(s.enc, p.report, next).Ok?
      && s2 == s.(enc := D.Obey(s.enc, p.report, next).value, known := next, reportBuffer := rest)
      && Inv(c, s2, h.(pending := h.pending[1..]))
      && |s2.enc.table.log| == |s.enc.table.log|
  {
    hide ReplicaInv, ReportInv, EncoderInv, StreamOk, BlockedInv, D.Receive, D.EncodeReport, D.Obey, Settle;
    var p, g := h.pending[0], h.(pending := h.pending[1..]);
    var next := if p.report.CountIncrement? then s.known + p.report.increment else s.known;
    DecoderBehind(c, s.enc.table, s.dec, s.instrBuffer + s.instrWire, h.instructions, h.applied);
    ReportFacts(s.enc, s.known, |s.dec.log|, s.told, s.reportBuffer + s.reportWire, h.pending);
    ReceiveReport(p, s.reportBuffer, rest, s.known, |s.enc.table.log|);
    AckMatches(c, s, h);
    ObeyEffect(c, s.enc, p, next, |s.dec.log|, 0);
    var e2 := D.Obey(s.enc, p.report, next).value;
    s2 := s.(enc := e2, known := next, reportBuffer := rest);
    assert s.reportBuffer + s.reportWire == D.EncodeReport(p.report) + (s2.reportBuffer + s2.reportWire);
    ReportTaken(s.enc, s.known, |s.dec.log|, s.told, s.reportBuffer + s.reportWire, h.pending, e2,
                s2.reportBuffer + s2.reportWire);
    ReplicaFrame(c, s.enc.table, e2.table, s.dec, s.instrBuffer + s.instrWire, h.instructions, h.applied);
    BlockedFrame(s, h, s2, g);
    forall st: nat
      ensures StreamOk(c, e2.table, e2.known, g.pending, st, View(s2, g, st))
    {
      assert StreamOk(c, s.enc.table, s.enc.known, h.pending, st, View(s, h, st));
      ObeyEffect(c, s.enc, p, next, |s.dec.log|, st);
      SettledStream(c, s.enc.table, s.enc.known, e2.table, e2.known, h.pending, st, View(s, h, st), Of(e2.unacked, st));
      assert View(s2, g, st) == View(s, h, st).(counts := Of(e2.unacked, st));
    }
  }

  lemma ReportFacts(e: Encoder, known: nat, inserts: nat, told: nat, octets: bytes, pending: seq<Pending>)
    requires ReportInv(e, known, inserts, told, octets, pending) && pending != []
    ensures GoodReport(pending[0], inserts) && e.known <= inserts && known <= inserts
    ensures forall more: nat :: inserts <= more ==> GoodReport(pending[0], more)
    ensures pending[0].report.CountIncrement? ==> known + pending[0].report.increment <= inserts
    ensures octets == D.EncodeReport(pending[0].report) + D.EncodeAll(Reports(pending[1..]))
  {
    hide D.EncodeAll, D.EncodeReport, Reports;
    ReportsTail(pending);
  }

  /** An acknowledgment on its way always meets the oldest outstanding section of its stream. */
  lemma AckMatches(c: Config, s: System, h: History)
    requires Agreed(c) && Inv(c, s, h) && h.pending != []
    ensures var p := h.pending[0];
      p.report.SectionAck? ==> SettleOne(Of(s.enc.unacked, p.report.stream), p, p.report.stream).Some?
  {
    hide ReplicaInv, ReportInv, EncoderInv, BlockedInv, FlightsOk, Counts, Cancelled;
    var p := h.pending[0];
    if p.report.SectionAck? {
      var st := p.report.stream;
      assert StreamOk(c, s.enc.table, s.enc.known, h.pending, st, View(s, h, st));
    }
  }

  /** Draining the decoder stream raises no error and keeps the invariant. */
  lemma {:induction false} DrainReportsInv(c: Config, s: System, h: History) returns (g: History)
    requires Agreed(c) && Inv(c, s, h)
    ensures var d := D.Drain(s.enc, s.known, s.reportBuffer, |s.enc.table.log|);
      d.Idle? && Inv(c, s.(enc := d.encoder, known := d.known, reportBuffer := d.buffer), g)
    ensures g.instructions == h.instructions
    decreases |h.pending|
  {
    hide Inv, D.Receive, D.EncodeReport, D.Obey, D.DecodeReport, Reports;
    OctetsAre(c, s, h);
    if h.pending == [] {
      NothingReceived(s.reportBuffer, s.known, |s.enc.table.log|);
      assert s.reportBuffer == [];
      return h;
    }
    var code := D.EncodeReport(h.pending[0].report);
    var others := D.EncodeAll(Reports(h.pending[1..]));
    if |s.reportBuffer| < |code| {
      E.TakesLess(s.reportBuffer, s.reportWire, code, others);
      D.PartialReport(h.pending[0].report, s.reportBuffer, code[|s.reportBuffer|..]);
      PartialWaits(s.reportBuffer, s.known, |s.enc.table.log|);
      return h;
    }
    E.TakesMore(s.reportBuffer, s.reportWire, code, others);
    var s2 := TakeReport(c, s, h, s.reportBuffer[|code|..]);
    g := DrainReportsInv(c, s2, h.(pending := h.pending[1..]));
  }

  lemma OctetsAre(c: Config, s: System, h: History)
    requires Agreed(c) && Inv(c, s, h)
    ensures h.pending == [] ==> s.reportBuffer + s.reportWire == []
    ensures h.pending != [] ==> D.Number(h.pending[0].report) <= MAX_VALUE
    ensures h.pending != [] ==>
      s.reportBuffer + s.reportWire == D.EncodeReport(h.pending[0].report) + D.EncodeAll(Reports(h.pending[1..]))
  {
    hide ReplicaInv, EncoderInv, StreamsInv, BlockedInv, D.EncodeReport;
    if h.pending != [] {
      ReportFacts(s.enc, s.known, |s.dec.log|, s.told, s.reportBuffer + s.reportWire, h.pending);
    } else {
      assert Reports(h.pending) == [];
    }
  }

  lemma NothingReceived(buffer: bytes, known: nat, inserts: nat)
    ensures buffer == [] ==> D.Receive(buffer, known, inserts) == D.Waiting
  {
  }

  lemma PartialWaits(buffer: bytes, known: nat, inserts: nat)
    requires D.DecodeReport(buffer) == Err(BufferTooShort)
    ensures D.Receive(buffer, known, inserts) == D.Waiting
  {
  }

  lemma DeliverReportsInv(c: Config, s: System, h: History, n: nat) returns (g: History)
    requires Agreed(c) && Inv(c, s, h) && Enabled(c, s, DeliverReports(n))
    ensures Inv(c, Next(c, s, DeliverReports(n)), g) && g.instructions == h.instructions
  {
    hide D.Drain, ReplicaInv, EncoderInv, ReportInv, StreamOk, BlockedInv;
    var s1 := s.(reportBuffer := s.reportBuffer + s.reportWire[..n], reportWire := s.reportWire[n..]);
    assert s1.reportBuffer + s1.reportWire == s.reportBuffer + s.reportWire;
    BlockedFrame(s, h, s1, h);
    forall st: nat
      ensures StreamOk(c, s1.enc.table, s1.enc.known, h.pending, st, View(s1, h, st))
    {
      assert View(s1, h, st) == View(s, h, st);
    }
    g := DrainReportsInv(c, s1, h);
    DeliverReportsIs(c, s, s1, n);
  }

  lemma DeliverReportsIs(c: Config, s: System, s1: System, n: nat)
    requires Agreed(c) && Enabled(c, s, DeliverReports(n))
    requires s1 == s.(reportBuffer := s.reportBuffer + s.reportWire[..n], reportWire := s.reportWire[n..])
    requires D.Drain(s1.enc, s1.known, s1.reportBuffer, |s1.enc.table.log|).Idle?
    ensures var d := D.Drain(s1.enc, s1.known, s1.reportBuffer, |s1.enc.table.log|);
      Next(c, s, DeliverReports(n)) == s1.(enc := d.encoder, known := d.known, reportBuffer := d.buffer)
  {
    hide D.Drain;
  }
}
