/** End-to-end properties of QPACK over all runs: whatever the order in which the encoder
    stream, the decoder stream and the request streams make progress. */
module QpackSafety {
  import opened Bytes
  import opened Fields
  import opened FieldLines
  import opened FieldSection
  import opened InsertCount
  import opened PrefixInteger
  import opened TableModel
  import opened EncoderModel
  import opened QpackSystem
  import opened QpackInvariant
  import opened QpackReplica
  import opened QpackSteps
  import opened QpackReports
  import E = EncoderInstructions
  import D = DecoderInstructions

  lemma NextInv(c: Config, s: System, h: History, step: Step) returns (g: History)
    requires Agreed(c) && Inv(c, s, h) && Enabled(c, s, step)
    ensures Inv(c, Next(c, s, step), g)
    ensures g.instructions == if step.InsertEntry? then h.instructions + [step.i] else h.instructions
  {
    hide Inv, Enabled, Next;
    match step {
      case InsertEntry(i, f) => g := InsertInv(c, s, h, i, f);
      case SendSection(stream, headers) => g := SendInv(c, s, h, stream, headers);
      case DeliverInstructions(n) => g := DeliverInstructionsInv(c, s, h, n);
      case DeliverSection(stream) => g := DeliverSectionInv(c, s, h, stream);
      case RetrySection(stream) => g := DeliverSectionInv(c, s, h, stream);
      case ReportInserts(n) => g := ReportInsertsInv(c, s, h, n);
      case ResetStream(stream) => g := ResetInv(c, s, h, stream);
      case DeliverReports(n) => g := DeliverReportsInv(c, s, h, n);
    }
  }

  lemma {:induction false} RunInv(c: Config, run: seq<System>, steps: seq<Step>, n: nat) returns (h: History)
    requires Agreed(c) && IsRun(c, run, steps) && n < |run|
    ensures Inv(c, run[n], h)
  {
    hide Inv, Enabled, Next, Init;
    if n == 0 {
      InitInv(c);
      h := History(FirstInstructions(c), 0, [], map[]);
    } else {
      h := RunInv(c, run, steps, n - 1);
      h := NextInv(c, run[n - 1], h, steps[n - 1]);
    }
  }

  // ---- Safety -----------------------------------------------------------------

  /** In every run, no connection error is ever raised on either side, and every stream has
      delivered a prefix of the field lists that were sent on it: the same fields, with the
      same values, in the same order. */
  lemma EndToEnd(c: Config, run: seq<System>, steps: seq<Step>, n: nat, stream: nat)
    requires Agreed(c) && IsRun(c, run, steps) && n < |run|
    ensures !run[n].failed
    ensures At(run[n].delivered, stream) <= At(run[n].sent, stream)
  {
    hide IsRun;
    var h := RunInv(c, run, steps, n);
    DeliveredPrefix(c, run[n], h, stream);
  }

  lemma DeliveredPrefix(c: Config, s: System, h: History, stream: nat)
    requires Agreed(c) && Inv(c, s, h)
    ensures At(s.delivered, stream) <= At(s.sent, stream)
    ensures stream !in s.abandoned ==>
      At(s.sent, stream) == At(s.delivered, stream) + Payloads(At(h.flights, stream))
      && At(s.sections, stream) == Datas(At(h.flights, stream))
  {
    hide ReplicaInv, ReportInv, EncoderInv, BlockedInv, FlightsOk, Settle, Cancelled;
    assert StreamOk(c, s.enc.table, s.enc.known, h.pending, stream, View(s, h, stream));
  }

  /** The section at the front of a live stream, decoded at any moment of any run, is either
      blocked on insertions that have not arrived or read as exactly the field list that was
      sent next; it is never an error and never another list. */
  lemma NextSectionIsExact(c: Config, run: seq<System>, steps: seq<Step>, n: nat, stream: nat)
    requires Agreed(c) && IsRun(c, run, steps) && n < |run|
    requires stream !in run[n].abandoned && At(run[n].sections, stream) != []
    ensures var s := run[n];
      var data, delivered, sent := At(s.sections, stream)[0], At(s.delivered, stream), At(s.sent, stream);
      && |delivered| < |sent|
      && CountOf(data, |s.dec.log|, c.maxCapacity).Ok?
      && DecodeSection(c.book, s.dec, data, c.maxCapacity, c.maxSize)
         == if |s.dec.log| < CountOf(data, |s.dec.log|, c.maxCapacity).value then Blocked
             else Decoded(sent[|delivered|])
  {
    hide IsRun, DecodeSection, CountOf;
    var h := RunInv(c, run, steps, n);
    var s := run[n];
    ExactAt(c, s, h, stream);
  }

  lemma ExactAt(c: Config, s: System, h: History, stream: nat)
    requires Agreed(c) && Inv(c, s, h) && stream !in s.abandoned && At(s.sections, stream) != []
    ensures At(h.flights, stream) != [] && |At(s.delivered, stream)| < |At(s.sent, stream)|
    ensures var f := At(h.flights, stream)[0];
      && f.data == At(s.sections, stream)[0] && f.fields == At(s.sent, stream)[|At(s.delivered, stream)|]
      && CountOf(f.data, |s.dec.log|, c.maxCapacity) == Ok(f.ric)
      && DecodeSection(c.book, s.dec, f.data, c.maxCapacity, c.maxSize)
         == if |s.dec.log| < f.ric then Blocked else Decoded(f.fields)
  {
    hide Inv, DecodeSection, CountOf;
    DeliveredPrefix(c, s, h, stream);
    DecodeOutcome(c, s, h, stream);
  }

  /** The window premise is earned by the run: the count of every section in flight, whatever
      stands in front of it, is one that the decoder can tell apart, however much of the encoder
      stream it has read, and names a live entry of the encoder. */
  lemma WindowIsEarned(c: Config, run: seq<System>, steps: seq<Step>, n: nat, stream: nat, i: nat)
    requires Agreed(c) && IsRun(c, run, steps) && n < |run|
    requires stream !in run[n].abandoned && i < |At(run[n].sections, stream)|
    ensures var s := run[n];
      var count := CountOf(At(s.sections, stream)[i], |s.dec.log|, c.maxCapacity);
      count.Ok? && (count.value > 0 ==>
        && InWindow(count.value, |s.dec.log|, MaxEntries(c.maxCapacity))
        && s.enc.table.dropped < count.value <= |s.enc.table.log|)
  {
    hide IsRun, CountOf, Inv;
    var h := RunInv(c, run, steps, n);
    DeliveredPrefix(c, run[n], h, stream);
    WindowAt(c, run[n], h, stream, i);
  }

  lemma WindowAt(c: Config, s: System, h: History, stream: nat, i: nat)
    requires Agreed(c) && Inv(c, s, h) && stream !in s.abandoned && i < |At(h.flights, stream)|
    ensures var f := At(h.flights, stream)[i];
      && CountOf(f.data, |s.dec.log|, c.maxCapacity) == Ok(f.ric)
      && (f.ric > 0 ==>
            && InWindow(f.ric, |s.dec.log|, MaxEntries(c.maxCapacity))
            && s.enc.table.dropped < f.ric <= |s.enc.table.log|)
  {
    hide ReplicaInv, ReportInv, EncoderInv, BlockedInv, Settle, Cancelled, Readable, CountOf, DecodeSection;
    InFlightInReach(c, s, h, stream, i);
    assert StreamOk(c, s.enc.table, s.enc.known, h.pending, stream, View(s, h, stream));
    assert Protected(c, s.enc.table, s.enc.known, At(h.flights, stream)[i]);
  }

  /** A blocked stream waits for the right count, and once the decoder has made that many
      insertions a retry always succeeds: it never blocks again. */
  lemma RetrySucceeds(c: Config, run: seq<System>, steps: seq<Step>, n: nat, stream: nat)
    requires Agreed(c) && IsRun(c, run, steps) && n < |run| && stream in run[n].blocked
    ensures var s := run[n];
      && stream !in s.abandoned && At(s.sections, stream) != []
      && CountOf(At(s.sections, stream)[0], |s.dec.log|, c.maxCapacity) == Ok(s.blocked[stream])
      && |At(s.delivered, stream)| < |At(s.sent, stream)|
      && (s.blocked[stream] <= |s.dec.log| ==>
            DecodeSection(c.book, s.dec, At(s.sections, stream)[0], c.maxCapacity, c.maxSize)
            == Decoded(At(s.sent, stream)[|At(s.delivered, stream)|]))
  {
    hide IsRun, DecodeSection, CountOf;
    var h := RunInv(c, run, steps, n);
    var s := run[n];
    BlockedFacts(c, s, h, stream);
    DeliveredPrefix(c, s, h, stream);
    ExactAt(c, s, h, stream);
  }

  lemma BlockedFacts(c: Config, s: System, h: History, stream: nat)
    requires Agreed(c) && Inv(c, s, h) && stream in s.blocked
    ensures stream !in s.abandoned && At(h.flights, stream) != []
        && s.blocked[stream] == At(h.flights, stream)[0].ric > 0
  {
  }

  /** With the whole encoder stream read, no live stream can be blocked. */
  lemma NothingBlocksWhenCaughtUp(c: Config, run: seq<System>, steps: seq<Step>, n: nat, stream: nat)
    requires Agreed(c) && IsRun(c, run, steps) && n < |run|
    requires run[n].instrBuffer == [] && run[n].instrWire == []
    requires stream !in run[n].abandoned && At(run[n].sections, stream) != []
    ensures var s := run[n];
      |At(s.delivered, stream)| < |At(s.sent, stream)|
      && DecodeSection(c.book, s.dec, At(s.sections, stream)[0], c.maxCapacity, c.maxSize)
         == Decoded(At(s.sent, stream)[|At(s.delivered, stream)|])
  {
    hide IsRun, DecodeSection, CountOf;
    var h := RunInv(c, run, steps, n);
    var s := run[n];
    ExactAt(c, s, h, stream);
    WindowAt(c, s, h, stream, 0);
    TablesMeet(c, s, h);
  }

  lemma NoOctetsLeft(k: Codebook, instructions: seq<E.Instruction>)
    requires Usable(k)
    ensures E.EncodeAll(k, instructions) == [] ==> instructions == []
  {
    hide E.EncodeInstruction;
  }

  /** The replicas agree once the stream between them is empty. */
  lemma CaughtUp(c: Config, run: seq<System>, steps: seq<Step>, n: nat)
    requires Agreed(c) && IsRun(c, run, steps) && n < |run|
    requires run[n].instrBuffer == [] && run[n].instrWire == []
    ensures run[n].dec == SetLimit(run[n].enc.table, 0)
  {
    hide IsRun, Inv;
    var h := RunInv(c, run, steps, n);
    TablesMeet(c, run[n], h);
  }

  lemma TablesMeet(c: Config, s: System, h: History)
    requires Agreed(c) && Inv(c, s, h) && s.instrBuffer == [] && s.instrWire == []
    ensures s.dec == SetLimit(s.enc.table, 0)
  {
    hide ReportInv, EncoderInv, StreamsInv, BlockedInv, E.Replay, E.Sendable, E.EncodeAll;
    NoOctetsLeft(c.book, h.instructions[h.applied..]);
    assert h.instructions[..|h.instructions|] == h.instructions;
  }

  /** The encoder's table, its protection aside, was `t` at some moment up to the `n`-th. */
  ghost predicate Seen(run: seq<System>, n: nat, t: Option<Table>) {
    t.Some? && exists m :: 0 <= m <= n && m < |run| && SetLimit(run[m].enc.table, 0) == t.value
  }

  lemma {:induction false} TablesOfTheRun(c: Config, run: seq<System>, steps: seq<Step>, n: nat) returns (h: History)
    requires Agreed(c) && IsRun(c, run, steps) && n < |run|
    ensures Inv(c, run[n], h) && |FirstInstructions(c)| <= |h.instructions|
    ensures forall j: nat :: |FirstInstructions(c)| <= j <= |h.instructions| ==>
      Seen(run, n, E.Replay(c.book, EMPTY, h.instructions[..j], c.maxCapacity))
  {
    hide Inv, Enabled, Next, Init, E.Replay, FirstInstructions, Seen;
    if n == 0 {
      InitInv(c);
      h := History(FirstInstructions(c), 0, [], map[]);
      LatestTable(c, run, n, h);
    } else {
      var h0 := TablesOfTheRun(c, run, steps, n - 1);
      h := NextInv(c, run[n - 1], h0, steps[n - 1]);
      LatestTable(c, run, n, h);
      forall j: nat | |FirstInstructions(c)| <= j <= |h.instructions|
        ensures Seen(run, n, E.Replay(c.book, EMPTY, h.instructions[..j], c.maxCapacity))
      {
        if j <= |h0.instructions| {
          assert h.instructions[..j] == h0.instructions[..j];
          SeenLater(run, n, E.Replay(c.book, EMPTY, h0.instructions[..j], c.maxCapacity));
        }
      }
    }
  }

  lemma SeenLater(run: seq<System>, n: nat, t: Option<Table>)
    requires n > 0 && Seen(run, n - 1, t)
    ensures Seen(run, n, t)
  {
  }

  lemma LatestTable(c: Config, run: seq<System>, n: nat, h: History)
    requires Agreed(c) && n < |run| && Inv(c, run[n], h)
    ensures Seen(run, n, E.Replay(c.book, EMPTY, h.instructions[..|h.instructions|], c.maxCapacity))
  {
    hide ReportInv, EncoderInv, StreamsInv, BlockedInv, E.Replay, E.Sendable, E.EncodeAll;
    assert h.instructions[..|h.instructions|] == h.instructions;
  }

  /** Replica agreement: at every moment of every run, the decoder's table is still empty or
      is exactly the encoder's table as it stood at some earlier moment of that run. */
  lemma ReplicasNeverDiverge(c: Config, run: seq<System>, steps: seq<Step>, n: nat)
    requires Agreed(c) && IsRun(c, run, steps) && n < |run|
    ensures run[n].dec == EMPTY || Seen(run, n, Some(run[n].dec))
  {
    hide IsRun, Seen;
    var h := TablesOfTheRun(c, run, steps, n);
    DecoderIsReplay(c, run[n], h);
    if h.applied < |FirstInstructions(c)| {
      assert h.instructions[..0] == [];
    }
  }

  lemma DecoderIsReplay(c: Config, s: System, h: History)
    requires Agreed(c) && Inv(c, s, h)
    ensures h.applied <= |h.instructions|
    ensures E.Replay(c.book, EMPTY, h.instructions[..h.applied], c.maxCapacity) == Some(s.dec)
  {
    hide ReportInv, EncoderInv, StreamsInv, BlockedInv, E.Replay, E.Sendable, E.EncodeAll;
  }

  // ---- Bounds -----------------------------------------------------------------

  /** The blocked streams at the decoder never outnumber the streams with unacknowledged
      sections, and these never outnumber what the decoder allows. What the encoder thinks
      the decoder has received, it has; and the decoder has nothing the encoder has not. */
  lemma BoundsHold(c: Config, run: seq<System>, steps: seq<Step>, n: nat)
    requires Agreed(c) && IsRun(c, run, steps) && n < |run|
    ensures var s := run[n];
      && |s.blocked| <= |s.enc.unacked| <= c.maxBlocked
      && s.enc.known <= |s.dec.log| <= |s.enc.table.log|
      && s.dec.log <= s.enc.table.log
  {
    hide IsRun;
    var h := RunInv(c, run, steps, n);
    BoundsAt(c, run[n], h);
  }

  lemma BoundsAt(c: Config, s: System, h: History)
    requires Agreed(c) && Inv(c, s, h)
    ensures |s.blocked| <= |s.enc.unacked| <= c.maxBlocked
    ensures s.enc.known <= |s.dec.log| && s.dec.log <= s.enc.table.log
  {
    hide ReplicaInv, Limit, Size, StreamOk, D.EncodeAll, Reports;
    DecoderBehind(c, s.enc.table, s.dec, s.instrBuffer + s.instrWire, h.instructions, h.applied);
    forall st | st in s.blocked
      ensures st in s.enc.unacked
    {
      OutstandingStream(c, s, h, st);
    }
    SubsetCount(s.blocked.Keys, s.enc.unacked.Keys);
  }

  /** The Known Received Count never moves back. */
  lemma KnownCountMonotone(c: Config, s: System, step: Step)
    requires Agreed(c) && Enabled(c, s, step)
    ensures s.enc.known <= Next(c, s, step).enc.known
  {
    hide D.Drain, E.Drain, DecodeSection, CountOf, SectionFor, E.EncodeInstruction, E.Names, Insert, UpdateLimit;
    if step.DeliverReports? {
      DrainMonotone(s.enc, s.known, s.reportBuffer + s.reportWire[..step.n], |s.enc.table.log|);
    }
    if step.SendSection? {
      TrackKeepsKnown(s.enc, step.stream, SectionCountFor(s.enc, step.headers, |s.enc.unacked|));
    }
  }

  lemma TrackKeepsKnown(e: Encoder, stream: nat, ric: nat)
    ensures TrackSection(e, stream, ric).known == e.known
  {
  }

  lemma {:induction false} DrainMonotone(e: Encoder, known: nat, buffer: bytes, inserts: nat)
    ensures e.known <= D.Drain(e, known, buffer, inserts).encoder.known
    decreases |buffer|
  {
    hide D.Receive;
    var r := D.Receive(buffer, known, inserts);
    if r.Got? {
      ObeyMonotone(e, r.report, r.known);
      var f := D.Obey(e, r.report, r.known);
      if f.Ok? {
        DrainMonotone(f.value, r.known, buffer[r.consumed..], inserts);
      }
    }
  }

  lemma ObeyMonotone(e: Encoder, report: D.Report, known: nat)
    ensures D.Obey(e, report, known).Ok? ==> e.known <= D.Obey(e, report, known).value.known
  {
  }

  /** When a live stream has nothing in flight and the decoder stream is drained, everything
      sent on the stream was delivered and the encoder protects nothing on its account. */
  lemma Settled(c: Config, run: seq<System>, steps: seq<Step>, n: nat, stream: nat)
    requires Agreed(c) && IsRun(c, run, steps) && n < |run|
    requires stream !in run[n].abandoned && At(run[n].sections, stream) == []
    requires run[n].reportBuffer == [] && run[n].reportWire == []
    ensures At(run[n].delivered, stream) == At(run[n].sent, stream)
    ensures stream !in run[n].enc.unacked
  {
    hide IsRun;
    var h := RunInv(c, run, steps, n);
    SettledAt(c, run[n], h, stream);
  }

  lemma SettledAt(c: Config, s: System, h: History, stream: nat)
    requires Agreed(c) && Inv(c, s, h) && stream !in s.abandoned && At(s.sections, stream) == []
    requires s.reportBuffer == [] && s.reportWire == []
    ensures At(s.delivered, stream) == At(s.sent, stream) && stream !in s.enc.unacked
  {
    hide ReplicaInv, BlockedInv, FlightsOk, Limit, Size, D.EncodeAll, Reports;
    DeliveredPrefix(c, s, h, stream);
    assert Datas(At(h.flights, stream)) == [] && Payloads(At(h.flights, stream)) == [];
    NoReportsLeft(h.pending);
    assert StreamOk(c, s.enc.table, s.enc.known, h.pending, stream, View(s, h, stream));
  }

  lemma NoReportsLeft(pending: seq<Pending>)
    ensures D.EncodeAll(Reports(pending)) == [] ==> pending == []
  {
    if pending != [] {
      ReportsTail(pending);
    }
  }

  // ---- The premise on the Required Insert Count --------------------------------------

  /** Why the guard on sending is there: a section whose count is outside the window of the
      decoder is not read with that count; inside the window it always is. */
  lemma WindowIsNeeded(c: Config, e: Encoder, headers: seq<Header>, streams: nat, inserts: nat)
    requires Agreed(c) && e.maxCapacity == c.maxCapacity && MaxEntries(c.maxCapacity) > 0
    requires SectionCountFor(e, headers, streams) > 0
    ensures CountOf(SectionFor(c.book, e, headers, streams), inserts, c.maxCapacity)
        == Ok(SectionCountFor(e, headers, streams))
       <==> InWindow(SectionCountFor(e, headers, streams), inserts, MaxEntries(c.maxCapacity))
  {
    hide RequiredCount, EncodeLines, DecodeCount, LinesFor, PrefixInteger.Decode, Pow2;
    var ric := SectionCountFor(e, headers, streams);
    var enc := EncodeCount(ric, c.maxCapacity);
    CountRoundTrip(ric, inserts, c.maxCapacity);
    RequiredCountCovers(e.table, headers);
    SmallPowers();
    var prefix, rest := Encode(enc, 8, 0),
        [0] + EncodeLines(c.book, LinesFor(c.book, e.table, headers, ric), e.useHuffman);
    RoundTrip(enc, 8, 0, rest);
    assert SectionFor(c.book, e, headers, streams) == prefix + rest;
  }
}
