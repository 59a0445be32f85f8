/** What a run of the QPACK state machine has put into the tables, and what the encoder has
    learnt of it, told from the steps alone. */
module QpackContents {
  import opened Bytes
  import opened Fields
  import opened FieldLines
  import opened FieldSection
  import opened InsertCount
  import opened PrefixInteger
  import opened TableModel
  import opened EncoderModel
  import opened KnownCount
  import opened QpackSystem
  import opened QpackInvariant
  import opened QpackSteps
  import opened QpackSafety
  import QpackGuard
  import QpackRetry
  import E = EncoderInstructions
  import D = DecoderInstructions

  // ---- The fields that were inserted -------------------------------------------------

  /** The fields that the sender wanted in the table, in order. */
  function Inserted(steps: seq<Step>): seq<Field> {
    if steps == [] then []
    else
      var before, last := Inserted(steps[..|steps| - 1]), steps[|steps| - 1];
      if last.InsertEntry? then before + [last.f] else before
  }

  lemma StepContents(c: Config, s: System, step: Step)
    requires Agreed(c) && Enabled(c, s, step)
    ensures Next(c, s, step).enc.table.log == s.enc.table.log + if step.InsertEntry? then [step.f] else []
  {
    hide D.Drain, E.Drain, DecodeSection, CountOf, SectionFor, E.EncodeInstruction, E.Names, Insert, Limit,
        SectionCountFor;
    if step.DeliverReports? {
      QpackGuard.DrainKeepsTable(s.enc, s.known, s.reportBuffer + s.reportWire[..step.n], |s.enc.table.log|);
    }
    if step.InsertEntry? {
      InsertAppends(s.enc.table, step.f);
    }
  }

  lemma {:induction false} EncoderContents(c: Config, run: seq<System>, steps: seq<Step>, n: nat)
    requires Agreed(c) && IsRun(c, run, steps) && n < |run|
    ensures run[n].enc.table.log == Inserted(steps[..n])
  {
    hide Init, Enabled, Next;
    if n == 0 {
      QpackGuard.FirstIsEmpty(c);
    } else {
      EncoderContents(c, run, steps, n - 1);
      StepContents(c, run[n - 1], steps[n - 1]);
      assert steps[..n][..n - 1] == steps[..n - 1];
    }
  }

  /** Both tables hold exactly the fields that were inserted, by whatever kind of instruction, in
      that order: the encoder all of them, the decoder the first ones, as many as it has read. */
  lemma TablesHoldWhatWasInserted(c: Config, run: seq<System>, steps: seq<Step>, n: nat)
    requires Agreed(c) && IsRun(c, run, steps) && n < |run|
    ensures run[n].enc.table.log == Inserted(steps[..n])
    ensures run[n].dec.log <= Inserted(steps[..n])
    ensures run[n].instrBuffer == [] && run[n].instrWire == [] ==> run[n].dec.log == Inserted(steps[..n])
  {
    hide IsRun, Inserted;
    EncoderContents(c, run, steps, n);
    BoundsHold(c, run, steps, n);
    if run[n].instrBuffer == [] && run[n].instrWire == [] {
      CaughtUp(c, run, steps, n);
    }
  }

  // ---- What the encoder has learnt ---------------------------------------------------

  /** What a step adds to the encoder's history: a section that is sent with its count, or the
      reports that are complete with the octets that arrive. */
  function Happens(s: System, step: Step): seq<Event> {
    match step
    case SendSection(stream, headers) => [Sent(stream, SectionCountFor(s.enc, headers, |s.enc.unacked|))]
    case DeliverReports(n) =>
      if n <= |s.reportWire| then Hear(KnownCount.Reports(s.reportBuffer + s.reportWire[..n])) else []
    case _ => []
  }

  function HistoryOf(run: seq<System>, steps: seq<Step>): seq<Event>
    requires |run| > |steps|
  {
    if steps == [] then []
    else
      var n := |steps| - 1;
      HistoryOf(run[..n + 1], steps[..n]) + Happens(run[n], steps[n])
  }

  lemma StepBooks(c: Config, s: System, step: Step, h: seq<Event>)
    requires Agreed(c) && Enabled(c, s, step) && Books(s.enc, s.known, h) && !Next(c, s, step).failed
    ensures Books(Next(c, s, step).enc, Next(c, s, step).known, h + Happens(s, step))
  {
    hide Books, D.Drain, E.Drain, DecodeSection, CountOf, SectionFor, E.EncodeInstruction, E.Names, Insert, Limit,
        SectionCountFor, TrackSection, KnownCount.Reports;
    match step {
      case SendSection(stream, headers) =>
        SendKeepsBooks(s.enc, s.known, h, stream, SectionCountFor(s.enc, headers, |s.enc.unacked|));
      case DeliverReports(n) =>
        DrainKeepsBooks(s.enc, s.known, h, s.reportBuffer + s.reportWire[..n], |s.enc.table.log|);
      case _ =>
        assert h + [] == h;
        OtherSteps(c, s, step);
        SameBooks(s.enc, Next(c, s, step).enc, s.known, h);
    }
  }

  lemma OtherSteps(c: Config, s: System, step: Step)
    requires Agreed(c) && Enabled(c, s, step) && !step.SendSection? && !step.DeliverReports?
    ensures var d := Next(c, s, step);
      d.enc.known == s.enc.known && d.enc.unacked == s.enc.unacked && d.known == s.known
  {
    hide D.Drain, E.Drain, QpackSystem.Decode, E.EncodeInstruction, E.Names, Insert, D.EncodeReport, Usable;
    if step.DeliverSection? {
      DecodeLeavesEncoder(c, s, step.stream, c.maxBlocked);
    }
    if step.RetrySection? {
      DecodeLeavesEncoder(c, s.(blocked := Forget(s.blocked, step.stream)), step.stream, |s.blocked|);
    }
  }

  lemma DecodeLeavesEncoder(c: Config, s: System, stream: nat, maxBlocked: nat)
    requires Agreed(c) && At(s.sections, stream) != []
    ensures var d := QpackSystem.Decode(c, s, stream, maxBlocked); d.enc == s.enc && d.known == s.known
  {
    hide DecodeSection, CountOf, D.EncodeReport;
  }

  lemma SameBooks(e: Encoder, e2: Encoder, known: nat, h: seq<Event>)
    requires Books(e, known, h) && e2.known == e.known && e2.unacked == e.unacked
    ensures Books(e2, known, h)
  {
  }

  lemma {:induction false} RunBooks(c: Config, run: seq<System>, steps: seq<Step>)
    requires Agreed(c) && IsRun(c, run, steps)
    ensures Books(run[|steps|].enc, run[|steps|].known, HistoryOf(run, steps))
    decreases |steps|
  {
    hide IsRun, Books, Enabled, Next, Init, Happens;
    RunStart(c, run, steps);
    if steps == [] {
      NoHistory(run[0].enc);
    } else {
      var n := |steps| - 1;
      QpackRetry.RunPrefix(c, run, steps);
      RunBooks(c, run[..n + 1], steps[..n]);
      EndToEnd(c, run, steps, n + 1, 0);
      StepBooks(c, run[n], steps[n], HistoryOf(run[..n + 1], steps[..n]));
    }
  }

  lemma RunStart(c: Config, run: seq<System>, steps: seq<Step>)
    requires Agreed(c) && IsRun(c, run, steps)
    ensures |run| == |steps| + 1 && run[0].enc.known == 0 && run[0].enc.unacked == map[] && run[0].known == 0
  {
  }

  /** In every run, the Known Received Count is exactly the largest of the sum of the increments
      that were read and the counts of the sections whose acknowledgments were read; every
      acknowledgment that was read settled a section; and the outstanding sections are exactly
      those that were sent and neither acknowledged nor cancelled, stream by stream in order. */
  lemma KnownCountIsExact(c: Config, run: seq<System>, steps: seq<Step>)
    requires Agreed(c) && IsRun(c, run, steps)
    ensures var s, h := run[|steps|], HistoryOf(run, steps);
      Matched(h) && IsKnown(h, s.enc.known) && Unsettled(h, s.enc.unacked)
  {
    hide IsRun, IsKnown, Unsettled, Matched;
    RunStart(c, run, steps);
    RunBooks(c, run, steps);
    BooksAre(run[|steps|].enc, run[|steps|].known, HistoryOf(run, steps));
  }

  lemma BooksAre(e: Encoder, known: nat, h: seq<Event>)
    requires Books(e, known, h)
    ensures Matched(h) && IsKnown(h, e.known) && Unsettled(h, e.unacked)
  {
  }
}
