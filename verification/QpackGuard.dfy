/** Why a sender has to watch the Known Received Count, and how closely: eviction does not
    watch it. */
module QpackGuard {
  import opened Bytes
  import opened Fields
  import opened FieldLines
  import opened FieldSection
  import opened InsertCount
  import opened PrefixInteger
  import opened TableModel
  import opened EncoderModel
  import opened QpackSystem
  import opened QpackInvariant
  import opened QpackSteps
  import opened QpackSafety
  import E = EncoderInstructions
  import D = DecoderInstructions

  // ---- A sender without the guard -----------------------------------------------------

  /** The field `a` without a value: 33 octets in a table. */
  const TINY: Field := Field([0x61], [])

  function OneEntry(): Encoder {
    Encoder(Window([TINY, TINY], 1, 33, 0), false, 33, 0, 1, map[])
  }

  /** With room for one entry, the second insertion evicts the first although the decoder has
      received neither. A section that refers to the second entry then fails at a decoder
      that has read nothing yet; it should have been blocked. */
  lemma UnguardedSendFails(k: Codebook)
    requires Usable(k)
    ensures Insert(Insert(EMPTY.(capacity := 33), TINY).0, TINY) == (OneEntry().table, Some(1))
    ensures Sound(OneEntry())
    ensures SectionCountFor(OneEntry(), [Header(TINY, false)], 0) == 2
    ensures DecodeSection(k, EMPTY, SectionFor(k, OneEntry(), [Header(TINY, false)], 0), 33, 16384)
        == Failed(DecodeFailed)
  {
    hide Usable, SectionOf, LinesFor, Limit, DecodeSection, RequiredCount, Insert, SizeOf;
    TwoInsertions();
    NothingOutstanding();
    NeedsBoth();
    CountOneFails(k, LinesFor(k, OneEntry().table, [Header(TINY, false)], 2));
  }

  /** The count 2 is sent as 1, which a decoder without insertions takes for 0. */
  lemma CountOneFails(k: Codebook, lines: seq<Line>)
    requires Usable(k)
    ensures DecodeSection(k, EMPTY, SectionOf(k, EncodeCount(2, 33), lines, false), 33, 16384) == Failed(DecodeFailed)
  {
    hide PrefixInteger.Decode, DecodeBody, EncodeLines, Pow2;
    SmallPowers();
    var rest := [0] + EncodeLines(k, lines, false);
    RoundTrip(1, 8, 0, rest);
    assert SectionOf(k, 1, lines, false) == Encode(1, 8, 0) + rest;
    assert DecodeCount(1, 0, 33) == Err(DecodeFailed);
  }

  lemma TwoInsertions()
    ensures Insert(EMPTY.(capacity := 33), TINY) == (Window([TINY], 0, 33, 0), Some(0))
    ensures Insert(Window([TINY], 0, 33, 0), TINY) == (OneEntry().table, Some(1))
    ensures Size(OneEntry().table) == 33
  {
    hide SizeOf;
    TinySizes();
    assert Insert(EMPTY.(capacity := 33), TINY).0.log == [] + [TINY] == [TINY];
    var t := Window([TINY], 0, 33, 0);
    assert Size(t) == 33 by { assert t.log[0..] == [TINY]; }
    assert Size(t.(dropped := 1)) == 0 by { assert t.log[1..] == []; }
    assert Evict(t, 33) == Evict(t.(dropped := 1), 33) == t.(dropped := 1);
    assert [TINY] + [TINY] == [TINY, TINY] && [TINY, TINY][1..] == [TINY];
  }

  lemma TinySizes()
    ensures SizeOf([]) == 0 && SizeOf([TINY]) == 33 && FieldSize(TINY) == 33
  {
    assert [TINY][1..] == [];
  }

  lemma NothingOutstanding()
    ensures Limit(map[]) == 0
  {
    assert !Outstanding(map[], Limit(map[]));
  }

  lemma NeedsBoth()
    ensures RequiredCount(OneEntry().table, [Header(TINY, false)]) == 2
  {
    var t := OneEntry().table;
    FindEntryFinds(t, TINY);
    assert t.log[1] == TINY;
    assert [Header(TINY, false)][..0] == [];
    assert RequiredCount(t, []) == 0;
  }

  // ---- The guard is exact -------------------------------------------------------------

  /** The section that `e` writes, with the fields it stands for and its count. */
  function Written(c: Config, e: Encoder, headers: seq<Header>, streams: nat): Flight
    requires Agreed(c)
  {
    Flight(SectionFor(c.book, e, headers, streams), FieldsOf(headers), SectionCountFor(e, headers, streams), e.table)
  }

  /** What a sender can test before it sends. */
  predicate Guarded(c: Config, e: Encoder, ric: nat) {
    ric <= e.known + MaxEntries(c.maxCapacity)
  }

  /** A decoder as the encoder may imagine it: behind the encoder, with all the insertions that
      are known to have arrived. */
  ghost predicate Possible(e: Encoder, reader: Table) {
    reader.log <= e.table.log && reader.dropped <= e.table.dropped && e.known <= |reader.log|
  }

  /** Under the guard every possible decoder reads the section or blocks on it. */
  lemma GuardSuffices(c: Config, e: Encoder, headers: seq<Header>, streams: nat, reader: Table)
    requires Agreed(c) && EncoderInv(c, e) && SizeOf(FieldsOf(headers)) <= c.maxSize
    requires Guarded(c, e, SectionCountFor(e, headers, streams)) && Possible(e, reader)
    ensures Reads(c, Written(c, e, headers, streams), reader)
  {
    hide Size, Limit, IsLimit, SectionFor, SectionCountFor, Reads;
    var f := WrittenIsReadable(c, e, headers, streams);
    SoundSize(e);
    TableCounts(e.table, c.maxCapacity);
    if 0 < f.ric <= |reader.log| {
      SamePrefix(reader.log, e.table.log, e.table.log, f.ric);
    }
    ReadableAt(c, f, reader);
  }

  /** Without it no decoder with just the known insertions does. */
  lemma GuardIsNeeded(c: Config, e: Encoder, headers: seq<Header>, streams: nat, reader: Table)
    requires Agreed(c) && EncoderInv(c, e) && |reader.log| == e.known
    requires !Guarded(c, e, SectionCountFor(e, headers, streams))
    ensures !Reads(c, Written(c, e, headers, streams), reader)
  {
    hide Size, Limit, IsLimit, SectionFor, CountOf, RequiredCount, DecodeSection;
    SoundSize(e);
    RequiredCountIsLive(e.table, headers);
    NoEntriesNoCount(c, e);
    WindowIsNeeded(c, e, headers, streams, e.known);
  }

  lemma NoEntriesNoCount(c: Config, e: Encoder)
    requires Agreed(c) && EncoderInv(c, e)
    ensures MaxEntries(c.maxCapacity) == 0 ==> LiveCount(e.table) == 0
  {
    hide Size, Limit, IsLimit;
    SoundSize(e);
    TableCounts(e.table, c.maxCapacity);
  }

  /** The guard is exact: it holds if and only if every decoder that the encoder may imagine
      reads the section as it was meant, or blocks on it. */
  lemma GuardIsExact(c: Config, e: Encoder, headers: seq<Header>, streams: nat)
    requires Agreed(c) && EncoderInv(c, e) && SizeOf(FieldsOf(headers)) <= c.maxSize
    ensures (forall reader: Table :: Possible(e, reader) ==> Reads(c, Written(c, e, headers, streams), reader))
       <==> Guarded(c, e, SectionCountFor(e, headers, streams))
  {
    hide Reads, EncoderInv, SectionFor, SectionCountFor;
    if Guarded(c, e, SectionCountFor(e, headers, streams)) {
      forall reader: Table | Possible(e, reader)
        ensures Reads(c, Written(c, e, headers, streams), reader)
      {
        GuardSuffices(c, e, headers, streams, reader);
      }
    } else {
      var reader := LeastPossible(c, e);
      GuardIsNeeded(c, e, headers, streams, reader);
    }
  }

  lemma LeastPossible(c: Config, e: Encoder) returns (reader: Table)
    requires EncoderInv(c, e)
    ensures Possible(e, reader) && |reader.log| == e.known
  {
    hide Size, Limit, IsLimit;
    reader := Window(e.table.log[..e.known], 0, e.table.capacity, 0);
  }

  // ---- ... and exact over runs ------------------------------------------------------------

  lemma {:induction false} DrainKeepsTable(e: Encoder, known: nat, buffer: bytes, inserts: nat)
    ensures var t := D.Drain(e, known, buffer, inserts).encoder.table;
      t.log == e.table.log && t.dropped == e.table.dropped
    decreases |buffer|
  {
    hide D.Receive;
    var r := D.Receive(buffer, known, inserts);
    if r.Got? {
      ObeyKeepsTable(e, r.report, r.known);
      var f := D.Obey(e, r.report, r.known);
      if f.Ok? {
        DrainKeepsTable(f.value, r.known, buffer[r.consumed..], inserts);
      }
    }
  }

  /** Nothing is taken back. */
  predicate Grown(t: Table, u: Table) {
    t.log <= u.log && t.dropped <= u.dropped
  }

  lemma ObeyKeepsTable(e: Encoder, report: D.Report, known: nat)
    ensures D.Obey(e, report, known).Ok? ==>
      var t := D.Obey(e, report, known).value.table; t.log == e.table.log && t.dropped == e.table.dropped
  {
    hide Limit;
  }

  lemma StepGrows(c: Config, s: System, step: Step)
    requires Agreed(c) && Enabled(c, s, step)
    ensures Grown(s.enc.table, Next(c, s, step).enc.table)
    ensures |Next(c, s, step).enc.table.log| <= |s.enc.table.log| + 1
  {
    hide D.Drain, E.Drain, DecodeSection, CountOf, SectionFor, E.EncodeInstruction, E.Names, Insert, Limit,
        SectionCountFor;
    if step.DeliverReports? {
      DrainKeepsTable(s.enc, s.known, s.reportBuffer + s.reportWire[..step.n], |s.enc.table.log|);
    }
    if step.InsertEntry? {
      InsertAppends(s.enc.table, step.f);
    }
  }

  lemma {:induction false} RunGrows(c: Config, run: seq<System>, steps: seq<Step>, m: nat, n: nat)
    requires Agreed(c) && IsRun(c, run, steps) && m <= n < |run|
    ensures Grown(run[m].enc.table, run[n].enc.table)
    decreases n
  {
    hide Init, Enabled, Next;
    if m < n {
      RunGrows(c, run, steps, m, n - 1);
      StepGrows(c, run[n - 1], steps[n - 1]);
    }
  }

  /** The encoder had every smaller number of insertions at some moment. */
  lemma {:induction false} TableWith(c: Config, run: seq<System>, steps: seq<Step>, n: nat, inserts: nat)
      returns (m: nat)
    requires Agreed(c) && IsRun(c, run, steps) && n < |run| && inserts <= |run[n].enc.table.log|
    ensures m <= n && |run[m].enc.table.log| == inserts
    decreases n
  {
    hide Enabled, Next;
    if inserts == |run[n].enc.table.log| {
      m := n;
    } else {
      FirstIsEmpty(c);
      StepGrows(c, run[n - 1], steps[n - 1]);
      m := TableWith(c, run, steps, n - 1, inserts);
    }
  }

  lemma FirstIsEmpty(c: Config)
    requires Agreed(c)
    ensures Init(c).enc.table.log == []
  {
  }

  /** A decoder that the run allows for, as far as the encoder can know at the `n`-th moment:
      empty or the encoder's table of some moment so far, with all the insertions that are known
      to have arrived. */
  ghost predicate Imaginable(run: seq<System>, n: nat, reader: Table)
    requires n < |run|
  {
    (reader == EMPTY || Seen(run, n, Some(reader))) && run[n].enc.known <= |reader.log|
  }

  /** At any moment of any run, a section may be sent under the guard if and only if every
      decoder that the run allows for reads it as it was meant, or blocks on it. */
  lemma GuardIsExactOverRuns(c: Config, run: seq<System>, steps: seq<Step>, n: nat, headers: seq<Header>)
    requires Agreed(c) && IsRun(c, run, steps) && n < |run| && SizeOf(FieldsOf(headers)) <= c.maxSize
    ensures var e := run[n].enc;
      (forall reader: Table :: Imaginable(run, n, reader) ==> Reads(c, Written(c, e, headers, |e.unacked|), reader))
      <==> Guarded(c, e, SectionCountFor(e, headers, |e.unacked|))
  {
    hide IsRun, EncoderInv, Reads, SectionFor, SectionCountFor;
    var e := run[n].enc;
    EncoderOfRun(c, run, steps, n);
    if Guarded(c, e, SectionCountFor(e, headers, |e.unacked|)) {
      forall reader: Table | Imaginable(run, n, reader)
        ensures Reads(c, Written(c, e, headers, |e.unacked|), reader)
      {
        if reader != EMPTY {
          var m :| 0 <= m <= n && m < |run| && SetLimit(run[m].enc.table, 0) == reader;
          RunGrows(c, run, steps, m, n);
        }
        GuardSuffices(c, e, headers, |e.unacked|, reader);
      }
    } else {
      var m := TableWith(c, run, steps, n, e.known);
      var reader := SetLimit(run[m].enc.table, 0);
      assert Imaginable(run, n, reader);
      GuardIsNeeded(c, e, headers, |e.unacked|, reader);
    }
  }

  /** The decoder of the run is one of them. */
  lemma DecoderIsImaginable(c: Config, run: seq<System>, steps: seq<Step>, n: nat)
    requires Agreed(c) && IsRun(c, run, steps) && n < |run|
    ensures Imaginable(run, n, run[n].dec)
  {
    hide IsRun, Seen;
    ReplicasNeverDiverge(c, run, steps, n);
    BoundsHold(c, run, steps, n);
  }

  lemma EncoderOfRun(c: Config, run: seq<System>, steps: seq<Step>, n: nat)
    requires Agreed(c) && IsRun(c, run, steps) && n < |run|
    ensures EncoderInv(c, run[n].enc) && run[n].enc.known <= |run[n].enc.table.log|
  {
    hide IsRun, ReplicaInv, ReportInv, StreamsInv, BlockedInv, Limit, Size, IsLimit;
    var h := RunInv(c, run, steps, n);
  }
}
