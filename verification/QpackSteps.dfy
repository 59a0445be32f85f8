/** Every step of the QPACK state machine keeps the invariant. */
module QpackSteps {
  import opened Bytes
  import opened Fields
  import opened FieldLines
  import opened FieldSection
  import opened InsertCount
  import opened PrefixInteger
  import opened TableModel
  import opened EncoderModel
  import opened QpackSystem
  import opened QpackInvariant
  import opened QpackReplica
  import E = EncoderInstructions
  import D = DecoderInstructions

  // ---- Start ------------------------------------------------------------------

  lemma InitInv(c: Config)
    requires Agreed(c)
    ensures Inv(c, Init(c), History(FirstInstructions(c), 0, [], map[]))
  {
    hide E.EncodeAll, D.EncodeAll, Readable;
    var s, h := Init(c), History(FirstInstructions(c), 0, [], map[]);
    NoLimit();
    FirstReplay(c);
    assert h.instructions[..0] == [] && h.instructions[0..] == h.instructions;
    assert s.instrBuffer + s.instrWire == s.instrWire;
    assert D.EncodeAll([]) == [] by { assert Reports([]) == []; NoReports(); }
    forall stream: nat
      ensures StreamOk(c, s.enc.table, s.enc.known, h.pending, stream, View(s, h, stream))
    {
    }
  }

  lemma NoReports()
    ensures D.EncodeAll([]) == []
  {
  }

  lemma NoLimit()
    ensures Limit(map[]) == 0
  {
    assert !Outstanding(map[], Limit(map[]));
  }

  lemma FirstReplay(c: Config)
    requires Agreed(c)
    ensures E.Replay(c.book, EMPTY, FirstInstructions(c), c.maxCapacity) == Some(EMPTY.(capacity := c.capacity))
    ensures forall i :: i in FirstInstructions(c) ==> E.Sendable(i)
  {
    hide E.Apply;
    if c.capacity > 0 {
      var i := E.SetTableCapacity(c.capacity);
      E.ReplayOne(c.book, EMPTY, i, c.maxCapacity);
      ApplyFirst(c);
    }
  }

  lemma ApplyFirst(c: Config)
    requires Agreed(c)
    ensures E.Apply(c.book, EMPTY, E.SetTableCapacity(c.capacity), c.maxCapacity) == Ok(EMPTY.(capacity := c.capacity))
  {
  }

  // ---- Insertions ---------------------------------------------------------------

  /** A stream's in-flight sections stay protected when the table only grows at its new end. */
  lemma ProtectedFrame(c: Config, t: Table, known: nat, t2: Table, known2: nat, flights: seq<Flight>)
    requires Agreed(c) && FlightsOk(c, t, known, flights)
    requires t.log <= t2.log && known <= known2
    requires Counts(flights) != [] ==> t2.dropped == t.dropped
    ensures FlightsOk(c, t2, known2, flights)
  {
    hide Readable, Counts;
    forall i | 0 <= i < |flights|
      ensures Readable(c, flights[i]) && Protected(c, t2, known2, flights[i])
    {
      if flights[i].ric > 0 {
        CountsHas(flights, i);
      }
    }
  }

  lemma StreamFrame(c: Config, t: Table, known: nat, t2: Table, known2: nat, pending: seq<Pending>, stream: nat,
                    v: StreamView)
    requires Agreed(c) && StreamOk(c, t, known, pending, stream, v)
    requires t.log <= t2.log && known <= known2
    requires v.counts != [] ==> t2.dropped == t.dropped
    ensures StreamOk(c, t2, known2, pending, stream, v)
  {
    hide Settle, Counts, FlightsOk, Cancelled;
    if !v.abandoned {
      SettleShrinks(v.counts, pending, stream);
      ProtectedFrame(c, t, known, t2, known2, v.flights);
    }
  }

  lemma InsertInv(c: Config, s: System, h: History, i: E.Instruction, f: Field) returns (g: History)
    requires Agreed(c) && Inv(c, s, h) && Enabled(c, s, InsertEntry(i, f))
    ensures Inv(c, Next(c, s, InsertEntry(i, f)), g) && g.instructions == h.instructions + [i]
  {
    hide Sound, Size, Insert, E.Names, E.EncodeInstruction, StreamOk, ReplicaInv, ReportInv;
    var s2 := Next(c, s, InsertEntry(i, f));
    g := h.(instructions := h.instructions + [i]);
    InsertKeepsEncoder(c, s.enc, f);
    ReplicaInsert(c, s.enc.table, s.dec, s.instrBuffer + s.instrWire, h.instructions, h.applied, i, f);
    assert s2.instrBuffer + s2.instrWire == s.instrBuffer + s.instrWire + E.EncodeInstruction(c.book, i);
    ReportFrame(s.enc, s2.enc, s.known, |s.dec.log|, s.told, s.reportBuffer + s.reportWire, h.pending);
    forall stream: nat
      ensures StreamOk(c, s2.enc.table, s2.enc.known, g.pending, stream, View(s2, g, stream))
    {
      assert View(s2, g, stream) == View(s, h, stream);
      assert StreamOk(c, s.enc.table, s.enc.known, h.pending, stream, View(s, h, stream));
      StreamFrame(c, s.enc.table, s.enc.known, s2.enc.table, s2.enc.known, h.pending, stream, View(s, h, stream));
    }
  }

  lemma InsertKeepsEncoder(c: Config, e: Encoder, f: Field)
    requires EncoderInv(c, e) && Insert(e.table, f).1.Some? && c.capacity <= MAX_VALUE
    ensures EncoderInv(c, Do(e, DoInsert(f)))
    ensures var t := Insert(e.table, f).0; e.table.log <= t.log && (e.unacked != map[] ==> t.dropped == e.table.dropped)
    ensures Size(e.table) <= e.table.capacity <= MAX_VALUE
  {
    hide Limit, IsLimit, Insert, Size;
    DoSound(e, DoInsert(f));
    InsertSound(e, f);
    InsertAppends(e.table, f);
  }

  lemma ReportFrame(e: Encoder, e2: Encoder, known: nat, inserts: nat, told: nat, octets: bytes, pending: seq<Pending>)
    requires ReportInv(e, known, inserts, told, octets, pending) && e2.known == e.known
    ensures ReportInv(e2, known, inserts, told, octets, pending)
  {
  }

  lemma ReportGrow(e: Encoder, known: nat, inserts: nat, inserts2: nat, told: nat, octets: bytes, pending: seq<Pending>)
    requires ReportInv(e, known, inserts, told, octets, pending) && inserts <= inserts2
    ensures ReportInv(e, known, inserts2, told, octets, pending)
  {
    hide D.EncodeAll, SumIncrements;
  }

  lemma BlockedFrame(s: System, h: History, s2: System, g: History)
    requires BlockedInv(s, h)
    requires s2.blocked == s.blocked && s2.abandoned == s.abandoned
    requires forall stream :: stream in s.blocked && At(h.flights, stream) != [] ==>
      At(g.flights, stream) != [] && At(g.flights, stream)[0] == At(h.flights, stream)[0]
    ensures BlockedInv(s2, g)
  {
  }

  // ---- Sections -----------------------------------------------------------------

  lemma TableCounts(t: Table, maxCapacity: nat)
    requires Size(t) <= t.capacity <= maxCapacity <= MAX_VALUE
    ensures LiveCount(t) <= MaxEntries(maxCapacity) <= MAX_VALUE
  {
    LiveCountBound(t);
    DivideMonotone(t.capacity, maxCapacity);
  }

  lemma DivideMonotone(a: nat, b: nat)
    requires a <= b
    ensures a / ENTRY_OVERHEAD <= b / ENTRY_OVERHEAD <= b
  {
  }

  /** The section an encoder writes can be read at every reader in reach of it. */
  lemma WrittenIsReadable(c: Config, e: Encoder, headers: seq<Header>, streams: nat) returns (f: Flight)
    requires Agreed(c) && EncoderInv(c, e) && SizeOf(FieldsOf(headers)) <= c.maxSize
    ensures f == Flight(SectionFor(c.book, e, headers, streams), FieldsOf(headers),
                        SectionCountFor(e, headers, streams), e.table)
    ensures Readable(c, f)
    ensures f.ric > 0 ==> e.table.dropped < f.ric <= |e.table.log|
  {
    hide DecodeSection, CountOf, Size, Sound, DynamicSection, StaticSection, RequiredCount, Covers, InWindow;
    f := Flight(SectionFor(c.book, e, headers, streams), FieldsOf(headers), SectionCountFor(e, headers, streams),
                e.table);
    SoundSize(e);
    TableCounts(e.table, c.maxCapacity);
    RequiredCountIsLive(e.table, headers);
    forall reader: Table | Reaches(c, f, reader)
      ensures Reads(c, f, reader)
    {
      if UsesStaticOnly(e, streams) {
        StaticSectionDecodes(c.book, reader, headers, c.maxCapacity, c.maxSize, c.useHuffman);
      } else {
        DynamicSectionDecodes(c.book, e.table, reader, headers, c.maxCapacity, c.maxSize, c.useHuffman);
      }
    }
  }

  lemma SoundSize(e: Encoder)
    requires Sound(e)
    ensures Size(e.table) <= e.table.capacity <= e.maxCapacity
  {
  }

  lemma SendInv(c: Config, s: System, h: History, stream: nat, headers: seq<Header>) returns (g: History)
    requires Agreed(c) && Inv(c, s, h) && Enabled(c, s, SendSection(stream, headers))
    ensures Inv(c, Next(c, s, SendSection(stream, headers)), g) && g.instructions == h.instructions
  {
    hide Sound, Size, Limit, IsLimit, RequiredCount, StreamOk, ReplicaInv, ReportInv, BlockedInv, Readable, SectionFor,
         SectionCountFor, Do;
    var s2 := Next(c, s, SendSection(stream, headers));
    var f := WrittenIsReadable(c, s.enc, headers, |s.enc.unacked|);
    g := h.(flights := Push(h.flights, stream, f));
    DoSound(s.enc, DoSend(stream, headers));
    SendEffect(s.enc, stream, headers, f.ric);
    ReplicaFrame(c, s.enc.table, s2.enc.table, s.dec, s.instrBuffer + s.instrWire, h.instructions, h.applied);
    ReportFrame(s.enc, s2.enc, s.known, |s.dec.log|, s.told, s.reportBuffer + s.reportWire, h.pending);
    BlockedFrame(s, h, s2, g);
    forall st: nat
      ensures StreamOk(c, s2.enc.table, s2.enc.known, g.pending, st, View(s2, g, st))
    {
      assert StreamOk(c, s.enc.table, s.enc.known, h.pending, st, View(s, h, st));
      StreamFrame(c, s.enc.table, s.enc.known, s2.enc.table, s2.enc.known, h.pending, st, View(s, h, st));
      SendView(s, h, s2, g, stream, f, st);
      if st == stream {
        SentStream(c, s2.enc.table, s2.enc.known, h.pending, st, View(s, h, st), f, View(s2, g, st));
      }
    }
  }

  lemma SendView(s: System, h: History, s2: System, g: History, stream: nat, f: Flight, st: nat)
    requires s2.sections == Push(s.sections, stream, f.data) && s2.sent == Push(s.sent, stream, f.fields)
    requires g.flights == Push(h.flights, stream, f)
    requires s2.delivered == s.delivered && s2.abandoned == s.abandoned
    requires Of(s2.enc.unacked, stream) == if f.ric > 0 then Of(s.enc.unacked, stream) + [f.ric]
        else Of(s.enc.unacked, stream)
    requires st != stream ==> Of(s2.enc.unacked, st) == Of(s.enc.unacked, st)
    ensures var v := View(s, h, st);
      View(s2, g, st)
      == if st != stream then v
         else StreamView(if f.ric > 0 then v.counts + [f.ric] else v.counts, v.flights + [f], v.sections + [f.data],
                         v.sent + [f.fields], v.delivered, v.abandoned)
  {
  }

  /** Tracking changes the limit and one stream's counts. */
  lemma SendEffect(e: Encoder, stream: nat, headers: seq<Header>, ric: nat)
    requires ric == SectionCountFor(e, headers, |e.unacked|)
    ensures var r := Do(e, DoSend(stream, headers));
      && r.table == SetLimit(e.table, r.table.limit) && r.known == e.known
      && r.maxCapacity == e.maxCapacity && r.peerMaxBlocked == e.peerMaxBlocked && r.useHuffman == e.useHuffman
      && Of(r.unacked, stream) == (if ric > 0 then Of(e.unacked, stream) + [ric] else Of(e.unacked, stream))
      && forall st :: st != stream ==> Of(r.unacked, st) == Of(e.unacked, st)
  {
    hide Limit, RequiredCount;
  }

  lemma ReplicaFrame(c: Config, t: Table, t2: Table, dec: Table, octets: bytes, instructions: seq<E.Instruction>,
                     applied: nat)
    requires Agreed(c) && ReplicaInv(c, t, dec, octets, instructions, applied) && t2 == SetLimit(t, t2.limit)
    ensures ReplicaInv(c, t2, dec, octets, instructions, applied)
  {
    hide E.Replay, E.EncodeAll, E.Sendable;
  }

  lemma SentStream(c: Config, t: Table, known: nat, pending: seq<Pending>, stream: nat, v: StreamView, f: Flight,
                   w: StreamView)
    requires Agreed(c) && StreamOk(c, t, known, pending, stream, v)
    requires Readable(c, f) && Protected(c, t, known, f) && stream <= MAX_VALUE
    requires w == StreamView(if f.ric > 0 then v.counts + [f.ric] else v.counts, v.flights + [f], v.sections + [f.data],
                             v.sent + [f.fields], v.delivered, v.abandoned)
    ensures StreamOk(c, t, known, pending, stream, w)
  {
    hide Readable, Protected, Settle, Cancelled, Counts;
    if f.ric > 0 {
      SettleTracked(v.counts, f.ric, pending, stream);
    }
    if !v.abandoned {
      CountsSnoc(v.flights, f);
      assert v.delivered + Payloads(v.flights + [f]) == v.delivered + Payloads(v.flights) + [f.fields];
      assert Datas(v.flights + [f]) == Datas(v.flights) + [f.data];
      forall i | 0 <= i < |w.flights|
        ensures Readable(c, w.flights[i]) && Protected(c, t, known, w.flights[i])
      {
        assert i < |v.flights| ==> w.flights[i] == v.flights[i];
      }
    }
  }

  // ---- Delivery -----------------------------------------------------------------

  /** The window premise is earned: every section in flight is in reach of the decoder. */
  lemma InFlightInReach(c: Config, s: System, h: History, stream: nat, i: nat)
    requires Agreed(c) && Inv(c, s, h) && stream !in s.abandoned && i < |At(h.flights, stream)|
    ensures Reaches(c, At(h.flights, stream)[i], s.dec)
    ensures Reads(c, At(h.flights, stream)[i], s.dec)
  {
    hide Size, E.EncodeAll, E.Replay, Settle, Readable, Limit, IsLimit;
    var f := At(h.flights, stream)[i];
    DecoderBehind(c, s.enc.table, s.dec, s.instrBuffer + s.instrWire, h.instructions, h.applied);
    TableCounts(s.enc.table, c.maxCapacity);
    assert StreamOk(c, s.enc.table, s.enc.known, h.pending, stream, View(s, h, stream));
    assert Readable(c, f) && Protected(c, s.enc.table, s.enc.known, f);
    if 0 < f.ric <= |s.dec.log| {
      SamePrefix(s.dec.log, f.writer.log, s.enc.table.log, f.ric);
    }
    ReadableAt(c, f, s.dec);
  }

  lemma SamePrefix(a: seq<Field>, b: seq<Field>, whole: seq<Field>, n: nat)
    requires a <= whole && b <= whole && n <= |a| && n <= |b|
    ensures a[..n] == b[..n]
  {
  }

  lemma ReadableAt(c: Config, f: Flight, reader: Table)
    requires Agreed(c) && Readable(c, f) && Reaches(c, f, reader)
    ensures Reads(c, f, reader)
  {
  }

  lemma DeliverInstructionsInv(c: Config, s: System, h: History, n: nat) returns (g: History)
    requires Agreed(c) && Inv(c, s, h) && Enabled(c, s, DeliverInstructions(n))
    ensures Inv(c, Next(c, s, DeliverInstructions(n)), g) && g.instructions == h.instructions
  {
    hide EncoderInv, StreamOk, ReplicaInv, ReportInv, BlockedInv, E.Drain;
    var s2 := Next(c, s, DeliverInstructions(n));
    var more := ReplicaDeliver(c, s.enc.table, s.dec, s.instrBuffer, s.instrWire, h.instructions, h.applied, n);
    g := h.(applied := h.applied + more);
    ReportGrow(s.enc, s.known, |s.dec.log|, |s2.dec.log|, s.told, s.reportBuffer + s.reportWire, h.pending);
    BlockedFrame(s, h, s2, g);
    forall stream: nat
      ensures StreamOk(c, s2.enc.table, s2.enc.known, g.pending, stream, View(s2, g, stream))
    {
      assert View(s2, g, stream) == View(s, h, stream);
    }
  }

  /** Blocked streams have unacknowledged sections, so one more always fits the bound. */
  lemma RoomToBlock(c: Config, s: System, h: History, stream: nat)
    requires Agreed(c) && Inv(c, s, h) && stream !in s.abandoned && stream !in s.blocked
    requires At(h.flights, stream) != [] && At(h.flights, stream)[0].ric > 0
    ensures |s.blocked| < c.maxBlocked
  {
    hide ReplicaInv, ReportInv, Limit, Size, Readable;
    OutstandingStream(c, s, h, stream);
    forall st | st in s.blocked
      ensures st in s.enc.unacked
    {
      OutstandingStream(c, s, h, st);
    }
    SubsetCount(s.blocked.Keys + {stream}, s.enc.unacked.Keys);
    assert |s.blocked.Keys + {stream}| == |s.blocked| + 1;
  }

  lemma SubsetCount(a: set<nat>, b: set<nat>)
    requires a <= b
    ensures |a| <= |b|
  {
    if a != {} {
      var x :| x in a;
      SubsetCount(a - {x}, b - {x});
    }
  }

  lemma OutstandingStream(c: Config, s: System, h: History, stream: nat)
    requires Agreed(c) && StreamsInv(c, s, h) && stream !in s.abandoned
    requires At(h.flights, stream) != [] && At(h.flights, stream)[0].ric > 0
    ensures stream in s.enc.unacked
  {
    hide Settle, Cancelled, FlightsOk;
    assert StreamOk(c, s.enc.table, s.enc.known, h.pending, stream, View(s, h, stream));
    SettleShrinks(Of(s.enc.unacked, stream), h.pending, stream);
  }

  /** What decoding the oldest section of a live stream does: exactly that section's fields
      come out, or the stream blocks because the count is not reached. No error is possible. */
  lemma DecodeOutcome(c: Config, s: System, h: History, stream: nat)
    requires Agreed(c) && Inv(c, s, h) && stream !in s.abandoned && At(h.flights, stream) != []
    ensures At(s.sections, stream) != [] && At(s.sections, stream)[0] == At(h.flights, stream)[0].data
    ensures var f := At(h.flights, stream)[0];
      && CountOf(f.data, |s.dec.log|, c.maxCapacity) == Ok(f.ric)
      && DecodeSection(c.book, s.dec, f.data, c.maxCapacity, c.maxSize)
         == (if |s.dec.log| < f.ric then Blocked else Decoded(f.fields))
      && At(s.sent, stream) == At(s.delivered, stream) + Payloads(At(h.flights, stream))
  {
    hide Inv, Reaches, CountOf, DecodeSection, Settle, Cancelled, FlightsOk;
    InFlightInReach(c, s, h, stream, 0);
    InvStreams(c, s, h);
    assert StreamOk(c, s.enc.table, s.enc.known, h.pending, stream, View(s, h, stream));
  }

  lemma InvStreams(c: Config, s: System, h: History)
    requires Agreed(c) && Inv(c, s, h)
    ensures StreamsInv(c, s, h)
  {
  }

  /** One more report on the wire. */
  lemma ReportSent(e: Encoder, known: nat, inserts: nat, told: nat, told2: nat, octets: bytes, pending: seq<Pending>,
                   p: Pending)
    requires ReportInv(e, known, inserts, told, octets, pending) && GoodReport(p, inserts)
    requires told2 == told + if p.report.CountIncrement? then p.report.increment else 0
    requires p.report.CountIncrement? ==> told2 <= inserts
    ensures ReportInv(e, known, inserts, told2, octets + D.EncodeReport(p.report), pending + [p])
  {
    hide D.EncodeAll, SumIncrements, Reports, GoodReport;
    ReportsSnoc(pending, p);
    SumSnoc(pending, p);
  }

  /** A report about one stream leaves every other stream as it is. */
  lemma OtherStreams(c: Config, t: Table, known: nat, pending: seq<Pending>, p: Pending, stream: nat, v: StreamView)
    requires Agreed(c) && StreamOk(c, t, known, pending, stream, v)
    requires p.report != D.SectionAck(stream) && p.report != D.StreamCancel(stream)
    ensures StreamOk(c, t, known, pending + [p], stream, v)
  {
    hide Settle, Cancelled, FlightsOk;
    SettleLast(v.counts, pending, p, stream);
    CancelledSnoc(pending, p, stream);
  }

  /** A delivered section and its acknowledgment. */
  lemma DeliveredStream(c: Config, t: Table, known: nat, pending: seq<Pending>, stream: nat, v: StreamView, p: Pending)
    requires Agreed(c) && StreamOk(c, t, known, pending, stream, v) && !v.abandoned && v.flights != []
    requires p == Pending(D.SectionAck(stream), v.flights[0].ric)
    ensures v.sections != [] && var f, rest := v.flights[0], v.flights[1..];
      StreamOk(c, t, known, if f.ric > 0 then pending + [p] else pending, stream,
               StreamView(v.counts, rest, v.sections[1..], v.sent, v.delivered + [f.fields], false))
  {
    hide Settle, Cancelled, FlightsOk;
    var f, rest := v.flights[0], v.flights[1..];
    SettleLast(v.counts, pending, p, stream);
    CancelledSnoc(pending, p, stream);
    FlightsTail(c, t, known, v.flights);
    FirstOut(v.delivered, v.flights);
    assert f.ric > 0 ==> Counts(v.flights)[1..] == Counts(rest);
  }

  lemma FlightsTail(c: Config, t: Table, known: nat, flights: seq<Flight>)
    requires Agreed(c) && FlightsOk(c, t, known, flights) && flights != []
    ensures FlightsOk(c, t, known, flights[1..])
  {
    hide Readable, Protected;
  }

  lemma FirstOut(delivered: seq<seq<Field>>, flights: seq<Flight>)
    requires flights != []
    ensures Datas(flights) != [] && Datas(flights)[1..] == Datas(flights[1..])
    ensures delivered + Payloads(flights) == delivered + [flights[0].fields] + Payloads(flights[1..])
  {
    assert Payloads(flights) == [flights[0].fields] + Payloads(flights[1..]);
  }

  lemma DeliverSectionInv(c: Config, s: System, h: History, stream: nat) returns (g: History)
    requires Agreed(c) && Inv(c, s, h)
    requires Enabled(c, s, DeliverSection(stream)) || Enabled(c, s, RetrySection(stream))
    ensures Enabled(c, s, DeliverSection(stream)) ==> Inv(c, Next(c, s, DeliverSection(stream)), g)
    ensures Enabled(c, s, RetrySection(stream)) ==> Inv(c, Next(c, s, RetrySection(stream)), g)
    ensures g.instructions == h.instructions
  {
    hide ReplicaInv, ReportInv, EncoderInv, StreamOk, DecodeSection, CountOf, Next;
    HasFlight(c, s, h, stream);
    DecodeOutcome(c, s, h, stream);
    var f := At(h.flights, stream)[0];
    if |s.dec.log| < f.ric {
      g := h;
      BlockInv(c, s, h, stream);
    } else {
      g := HistoryDelivered(h, stream);
      DecodedInv(c, s, h, stream, g);
    }
  }

  lemma HasFlight(c: Config, s: System, h: History, stream: nat)
    requires Agreed(c) && Inv(c, s, h) && At(s.sections, stream) != []
    requires stream !in s.abandoned || stream in s.blocked
    ensures stream !in s.abandoned && At(h.flights, stream) != []
  {
    hide ReplicaInv, ReportInv, EncoderInv, Settle, Cancelled, FlightsOk;
    assert StreamOk(c, s.enc.table, s.enc.known, h.pending, stream, View(s, h, stream));
  }

  lemma BlockInv(c: Config, s: System, h: History, stream: nat)
    requires Agreed(c) && Inv(c, s, h) && stream !in s.abandoned && At(h.flights, stream) != []
    requires |s.dec.log| < At(h.flights, stream)[0].ric
    requires Enabled(c, s, DeliverSection(stream)) || Enabled(c, s, RetrySection(stream))
    ensures Enabled(c, s, DeliverSection(stream)) && !Enabled(c, s, RetrySection(stream))
    ensures Inv(c, Next(c, s, DeliverSection(stream)), h)
  {
    hide ReplicaInv, ReportInv, EncoderInv, StreamOk, DecodeSection, CountOf;
    DecodeOutcome(c, s, h, stream);
    RoomToBlock(c, s, h, stream);
    var s2 := Next(c, s, DeliverSection(stream));
    forall st: nat
      ensures StreamOk(c, s2.enc.table, s2.enc.known, h.pending, st, View(s2, h, st))
    {
      assert View(s2, h, st) == View(s, h, st);
    }
  }

  /** The state after a section has been decoded. */
  function Delivered(s: System, stream: nat, f: Flight): System {
    s.(sections := s.sections[stream := if At(s.sections, stream) == [] then [] else At(s.sections, stream)[1..]],
       delivered := Push(s.delivered, stream, f.fields),
       reportWire := if f.ric > 0 then s.reportWire + D.EncodeReport(D.SectionAck(stream)) else s.reportWire,
       blocked := Forget(s.blocked, stream))
  }

  lemma DeliverIs(c: Config, s: System, stream: nat, f: Flight)
    requires Agreed(c) && Enabled(c, s, DeliverSection(stream))
    requires CountOf(At(s.sections, stream)[0], |s.dec.log|, c.maxCapacity) == Ok(f.ric)
    requires DecodeSection(c.book, s.dec, At(s.sections, stream)[0], c.maxCapacity, c.maxSize) == Decoded(f.fields)
    ensures Next(c, s, DeliverSection(stream)) == Delivered(s, stream, f)
  {
    hide DecodeSection, CountOf;
    assert Forget(s.blocked, stream) == s.blocked;
  }

  lemma RetryIs(c: Config, s: System, stream: nat, f: Flight)
    requires Agreed(c) && Enabled(c, s, RetrySection(stream))
    requires CountOf(At(s.sections, stream)[0], |s.dec.log|, c.maxCapacity) == Ok(f.ric)
    requires DecodeSection(c.book, s.dec, At(s.sections, stream)[0], c.maxCapacity, c.maxSize) == Decoded(f.fields)
    ensures Next(c, s, RetrySection(stream)) == Delivered(s, stream, f)
  {
    hide DecodeSection, CountOf;
  }

  lemma DecodedInv(c: Config, s: System, h: History, stream: nat, g: History)
    requires Agreed(c) && Inv(c, s, h) && stream !in s.abandoned && At(h.flights, stream) != []
    requires |s.dec.log| >= At(h.flights, stream)[0].ric
    requires g == HistoryDelivered(h, stream)
    ensures Enabled(c, s, DeliverSection(stream)) ==> Inv(c, Next(c, s, DeliverSection(stream)), g)
    ensures Enabled(c, s, RetrySection(stream)) ==> Inv(c, Next(c, s, RetrySection(stream)), g)
  {
    hide Inv, DecodeSection, CountOf, Next, Enabled, HistoryDelivered, Delivered;
    DecodeOutcome(c, s, h, stream);
    var f := At(h.flights, stream)[0];
    DeliveredInv(c, s, h, stream);
    if Enabled(c, s, RetrySection(stream)) {
      RetryIs(c, s, stream, f);
    }
    if Enabled(c, s, DeliverSection(stream)) {
      DeliverIs(c, s, stream, f);
    }
  }

  function HistoryDelivered(h: History, stream: nat): History
    requires At(h.flights, stream) != []
  {
    var f, rest := At(h.flights, stream)[0], At(h.flights, stream)[1..];
    h.(flights := h.flights[stream := rest],
       pending := if f.ric > 0 then h.pending + [Pending(D.SectionAck(stream), f.ric)] else h.pending)
  }

  lemma DeliveredInv(c: Config, s: System, h: History, stream: nat)
    requires Agreed(c) && Inv(c, s, h) && stream !in s.abandoned && At(h.flights, stream) != []
    requires |s.dec.log| >= At(h.flights, stream)[0].ric && At(s.sections, stream) != []
    ensures Inv(c, Delivered(s, stream, At(h.flights, stream)[0]), HistoryDelivered(h, stream))
  {
    hide ReplicaInv, ReportInv, EncoderInv, StreamOk, BlockedInv;
    var f := At(h.flights, stream)[0];
    var p := Pending(D.SectionAck(stream), f.ric);
    var s2, g := Delivered(s, stream, f), HistoryDelivered(h, stream);
    assert StreamOk(c, s.enc.table, s.enc.known, h.pending, stream, View(s, h, stream));
    StreamIdFits(c, s.enc.table, s.enc.known, h.pending, stream, View(s, h, stream));
    if f.ric > 0 {
      ReportSent(s.enc, s.known, |s.dec.log|, s.told, s.told, s.reportBuffer + s.reportWire, h.pending, p);
      assert s2.reportBuffer + s2.reportWire == s.reportBuffer + s.reportWire + D.EncodeReport(p.report);
    }
    DeliveredBlocked(s, h, stream);
    forall st: nat
      ensures StreamOk(c, s2.enc.table, s2.enc.known, g.pending, st, View(s2, g, st))
    {
      assert StreamOk(c, s.enc.table, s.enc.known, h.pending, st, View(s, h, st));
      DeliveredView(s, h, stream, st);
      if st == stream {
        DeliveredStream(c, s.enc.table, s.enc.known, h.pending, stream, View(s, h, stream), p);
      } else {
        OtherStreams(c, s.enc.table, s.enc.known, h.pending, p, st, View(s, h, st));
      }
    }
  }

  lemma DeliveredView(s: System, h: History, stream: nat, st: nat)
    requires At(h.flights, stream) != [] && At(s.sections, stream) != []
    ensures var v, w := View(s, h, st),
        View(Delivered(s, stream, At(h.flights, stream)[0]), HistoryDelivered(h, stream), st);
      w == if st != stream then v
           else StreamView(v.counts, v.flights[1..], v.sections[1..], v.sent, v.delivered + [v.flights[0].fields],
                           v.abandoned)
  {
  }

  lemma DeliveredBlocked(s: System, h: History, stream: nat)
    requires BlockedInv(s, h) && At(h.flights, stream) != []
    ensures BlockedInv(Delivered(s, stream, At(h.flights, stream)[0]), HistoryDelivered(h, stream))
  {
  }

  lemma StreamIdFits(c: Config, t: Table, known: nat, pending: seq<Pending>, stream: nat, v: StreamView)
    requires Agreed(c) && StreamOk(c, t, known, pending, stream, v) && !v.abandoned && v.flights != []
    ensures stream <= MAX_VALUE
  {
  }
}
