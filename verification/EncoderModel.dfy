/** The encoder's side of the reference bookkeeping (section 2.1 of RFC 9204): which field
    sections are unacknowledged, how far the decoder is known to be, and what may be evicted. */
module EncoderModel {
  import opened Bytes
  import opened Fields
  import opened FieldLines
  import opened FieldSection
  import opened InsertCount
  import opened TableModel

  /** Required Insert Counts of the unacknowledged sections, oldest first, by stream. */
  type Sections = map<nat, seq<nat>>

  datatype Encoder = Encoder(
    table: Table,
    useHuffman: bool,
    maxCapacity: nat,
    known: nat,
    peerMaxBlocked: nat,
    unacked: Sections
  )

  /** The counts of a stream; a stream without an entry has none. */
  function Of(sections: Sections, stream: nat): seq<nat> {
    if stream in sections then sections[stream] else []
  }

  function Without(sections: Sections, stream: nat): (r: Sections)
    ensures r.Keys == sections.Keys - {stream}
    ensures forall s :: s in r ==> r[s] == sections[s]
  {
    map s | s in sections && s != stream :: sections[s]
  }

  ghost predicate Outstanding(sections: Sections, ric: nat) {
    exists s :: s in sections && ric in sections[s]
  }

  /** The eviction limit is the largest outstanding count, or 0. */
  ghost predicate IsLimit(sections: Sections, limit: nat) {
    && (forall s, i :: s in sections && 0 <= i < |sections[s]| ==> sections[s][i] <= limit)
    && (limit == 0 || Outstanding(sections, limit))
  }

  lemma LimitUnique(sections: Sections, a: nat, b: nat)
    requires IsLimit(sections, a) && IsLimit(sections, b)
    ensures a == b
  {
  }

  // ---- Operations ---------------------------------------------------------

  /** What `update_eviction_limit` computes. */
  ghost function Limit(sections: Sections): (m: nat)
    ensures IsLimit(sections, m)
  {
    LimitExists(sections);
    var m: nat :| IsLimit(sections, m);
    m
  }

  lemma {:induction false} LimitExists(sections: Sections)
    ensures exists m: nat :: IsLimit(sections, m)
    decreases |sections|
  {
    if sections == map[] {
      assert IsLimit(sections, 0);
    } else {
      var s :| s in sections;
      var rest := Without(sections, s);
      assert sections.Keys == rest.Keys + {s};
      LimitExists(rest);
      var m: nat :| IsLimit(rest, m);
      var top := MaxOf(sections[s], m);
      assert Outstanding(rest, m) ==> Outstanding(sections, m);
      assert IsLimit(sections, top);
    }
  }

  function MaxOf(counts: seq<nat>, floor: nat): (m: nat)
    ensures floor <= m && (forall i :: 0 <= i < |counts| ==> counts[i] <= m) && (m == floor || m in counts)
  {
    if counts == [] then floor
    else
      var rest := MaxOf(counts[..|counts| - 1], floor);
      if counts[|counts| - 1] > rest then counts[|counts| - 1] else rest
  }

  ghost function UpdateLimit(e: Encoder): Encoder {
    e.(table := SetLimit(e.table, Limit(e.unacked)))
  }

  ghost function Acknowledge(e: Encoder, count: nat): Encoder {
    UpdateLimit(e.(known := if count > e.known then count else e.known))
  }

  ghost function TrackSection(e: Encoder, stream: nat, ric: nat): Encoder {
    if ric == 0 then e else UpdateLimit(e.(unacked := e.unacked[stream := Of(e.unacked, stream) + [ric]]))
  }

  /** Releases the oldest section of a stream; without one it is a protocol error. */
  ghost function AckSection(e: Encoder, stream: nat): Result<Encoder> {
    if Of(e.unacked, stream) == [] then Err(DecodeFailed)
    else
      var ric, rest := e.unacked[stream][0], e.unacked[stream][1..];
      Ok(UpdateLimit(e.(
        unacked := if rest == [] then Without(e.unacked, stream) else e.unacked[stream := rest],
        known := if ric > e.known then ric else e.known)))
  }

  ghost function CancelStream(e: Encoder, stream: nat): Encoder {
    UpdateLimit(e.(unacked := Without(e.unacked, stream)))
  }

  /** The count a section of these headers will carry. */
  function SectionCountFor(e: Encoder, headers: seq<Header>, blockedStreams: nat): nat {
    if UsesStaticOnly(e, blockedStreams) then 0 else RequiredCount(e.table, headers)
  }

  predicate UsesStaticOnly(e: Encoder, blockedStreams: nat) {
    LiveCount(e.table) == 0 || e.maxCapacity == 0 || blockedStreams >= e.peerMaxBlocked
  }

  /** What `encode` writes. */
  function SectionFor(k: Codebook, e: Encoder, headers: seq<Header>, blockedStreams: nat): bytes
    requires Usable(k)
  {
    if UsesStaticOnly(e, blockedStreams) then StaticSection(k, headers, e.useHuffman)
    else DynamicSection(k, e.table, headers, e.maxCapacity, e.useHuffman)
  }

  // ---- Invariant ----------------------------------------------------------

  ghost predicate Sound(e: Encoder) {
    && Size(e.table) <= e.table.capacity <= e.maxCapacity
    && e.table.limit == Limit(e.unacked)
    && (forall s, i :: s in e.unacked && 0 <= i < |e.unacked[s]| ==>
          e.table.dropped < e.unacked[s][i] <= |e.table.log|)
    && (forall s :: s in e.unacked ==> e.unacked[s] != [])
    && |e.unacked| <= e.peerMaxBlocked
    && e.known <= |e.table.log|
  }

  /** What a caller may do with an encoder. Sections are encoded and tracked in one go, with
      the number of streams that have unacknowledged sections, as `send_request` does. */
  datatype Op =
    | DoInsert(f: Field)
    | DoSend(stream: nat, headers: seq<Header>)
    | DoAck(stream: nat)
    | DoCancel(stream: nat)
    | DoAcknowledge(count: nat)

  ghost function Do(e: Encoder, op: Op): Encoder {
    match op
    case DoInsert(f) => e.(table := Insert(e.table, f).0)
    case DoSend(stream, headers) => TrackSection(e, stream, SectionCountFor(e, headers, |e.unacked|))
    case DoAck(stream) => (var r := AckSection(e, stream); if r.Ok? then r.value else e)
    case DoCancel(stream) => CancelStream(e, stream)
    case DoAcknowledge(count) => Acknowledge(e, count)
  }

  /** The decoder only ever reports insertions that were made. */
  predicate Honest(e: Encoder, op: Op) {
    op.DoAcknowledge? ==> op.count <= |e.table.log|
  }

  lemma WithoutCount(sections: Sections, stream: nat)
    ensures |Without(sections, stream)| == if stream in sections then |sections| - 1 else |sections|
  {
    var r := Without(sections, stream);
    if stream in sections {
      assert sections.Keys == r.Keys + {stream};
      assert |sections.Keys| == |r.Keys| + 1;
      assert |sections| == |sections.Keys| && |r| == |r.Keys|;
    } else {
      assert r == sections;
    }
  }

  lemma AddCount(sections: Sections, stream: nat, counts: seq<nat>)
    ensures |sections[stream := counts]| == if stream in sections then |sections| else |sections| + 1
  {
    var r := sections[stream := counts];
    assert r.Keys == sections.Keys + {stream};
    assert |sections| == |sections.Keys| && |r| == |r.Keys|;
  }

  /** With something outstanding, eviction cannot even start: an outstanding count lies
      above `dropped` and below the limit. */
  lemma OutstandingStopsEviction(e: Encoder, stream: nat)
    requires Sound(e) && stream in e.unacked
    ensures e.table.dropped < e.table.limit
  {
    assert e.unacked[stream][0] <= e.table.limit;
  }

  lemma InsertSound(e: Encoder, f: Field)
    requires Sound(e)
    ensures Sound(Do(e, DoInsert(f)))
    ensures e.unacked != map[] ==> Do(e, DoInsert(f)).table.dropped == e.table.dropped
  {
    hide Limit, IsLimit, Insert, SizeOf;
    InsertAllOrNothing(e.table, f);
    if Insert(e.table, f).1.Some? {
      InsertAppends(e.table, f);
      if e.unacked != map[] {
        var s :| s in e.unacked;
        OutstandingStopsEviction(e, s);
      }
    }
  }

  lemma SendSound(e: Encoder, stream: nat, headers: seq<Header>)
    requires Sound(e)
    ensures Sound(Do(e, DoSend(stream, headers)))
  {
    hide Limit, IsLimit, RequiredCount, SizeOf;
    RequiredCountIsLive(e.table, headers);
    var ric := SectionCountFor(e, headers, |e.unacked|);
    if ric > 0 {
      AddCount(e.unacked, stream, Of(e.unacked, stream) + [ric]);
    }
  }

  lemma AckSound(e: Encoder, stream: nat)
    requires Sound(e)
    ensures Sound(Do(e, DoAck(stream)))
  {
    hide Limit, IsLimit, SizeOf;
    if Of(e.unacked, stream) != [] {
      var rest := e.unacked[stream][1..];
      WithoutCount(e.unacked, stream);
      AddCount(e.unacked, stream, rest);
    }
  }

  lemma CancelSound(e: Encoder, stream: nat)
    requires Sound(e)
    ensures Sound(Do(e, DoCancel(stream)))
  {
    hide Limit, IsLimit, SizeOf;
    WithoutCount(e.unacked, stream);
  }

  lemma KnownGrows(e: Encoder, op: Op)
    ensures Do(e, op).known >= e.known
  {
    hide Limit, SizeOf, Insert, RequiredCount, Without;
  }

  /** Every operation keeps the encoder sound: sizes, limit, protection, the peer's bound on
      blocked streams and the bound on the Known Received Count. */
  lemma DoSound(e: Encoder, op: Op)
    requires Sound(e) && Honest(e, op)
    ensures Sound(Do(e, op))
    ensures Do(e, op).known >= e.known
  {
    KnownGrows(e, op);
    match op {
      case DoInsert(f) => InsertSound(e, f);
      case DoSend(stream, headers) => SendSound(e, stream, headers);
      case DoAck(stream) => AckSound(e, stream);
      case DoCancel(stream) => CancelSound(e, stream);
      case DoAcknowledge(_) =>
        hide Limit, IsLimit, SizeOf;
    }
  }

  // ---- Runs ---------------------------------------------------------------

  ghost function RunOps(e: Encoder, ops: seq<Op>): Encoder {
    if ops == [] then e else Do(RunOps(e, ops[..|ops| - 1]), ops[|ops| - 1])
  }

  ghost predicate HonestRun(e: Encoder, ops: seq<Op>) {
    forall n :: 0 <= n < |ops| ==> Honest(RunOps(e, ops[..n]), ops[n])
  }

  /** In every run of an encoder the invariant holds, so the streams with unacknowledged
      sections never outnumber what the peer allows. */
  lemma {:induction false} RunSound(e: Encoder, ops: seq<Op>)
    requires Sound(e) && HonestRun(e, ops)
    ensures Sound(RunOps(e, ops)) && RunOps(e, ops).known >= e.known
    ensures RunOps(e, ops).peerMaxBlocked == e.peerMaxBlocked
    decreases |ops|
  {
    hide Sound, Honest, Do;
    if ops != [] {
      var n := |ops| - 1;
      forall i | 0 <= i < n
        ensures Honest(RunOps(e, ops[..n][..i]), ops[..n][i])
      {
        assert ops[..n][..i] == ops[..i];
      }
      RunSound(e, ops[..n]);
      DoSound(RunOps(e, ops[..n]), ops[n]);
      SameLimits(RunOps(e, ops[..n]), ops[n]);
    }
  }

  lemma SameLimits(e: Encoder, op: Op)
    ensures Do(e, op).peerMaxBlocked == e.peerMaxBlocked
  {
  }

  /** A stream that still has an unacknowledged section after every step of a run. */
  ghost predicate StaysOutstanding(e: Encoder, ops: seq<Op>, stream: nat) {
    forall n :: 0 <= n <= |ops| ==> stream in RunOps(e, ops[..n]).unacked
  }

  /** References are never evicted: as long as some section of a stream is unacknowledged
      after every step, the run drops no entry at all and leaves the log as it was, so each
      entry that was live when that section was tracked is still live and still the same. */
  lemma {:induction false} ReferencesSurvive(e: Encoder, ops: seq<Op>, stream: nat, a: nat)
    requires Sound(e) && HonestRun(e, ops) && StaysOutstanding(e, ops, stream)
    ensures RunOps(e, ops).table.dropped == e.table.dropped
    ensures e.table.dropped <= a < |e.table.log| ==> ByAbsolute(RunOps(e, ops).table, a) == ByAbsolute(e.table, a)
    ensures e.table.log <= RunOps(e, ops).table.log
    decreases |ops|
  {
    hide Sound, Honest, Do;
    if ops != [] {
      var n := |ops| - 1;
      forall i | 0 <= i < n
        ensures Honest(RunOps(e, ops[..n][..i]), ops[..n][i])
      {
        assert ops[..n][..i] == ops[..i];
      }
      forall i | 0 <= i <= n
        ensures stream in RunOps(e, ops[..n][..i]).unacked
      {
        assert ops[..n][..i] == ops[..i];
      }
      ReferencesSurvive(e, ops[..n], stream, a);
      RunSound(e, ops[..n]);
      assert ops[..n][..n] == ops[..n];
      assert stream in RunOps(e, ops[..n]).unacked;
      StepKeepsWindow(RunOps(e, ops[..n]), ops[n], stream);
    }
  }

  lemma StepKeepsWindow(e: Encoder, op: Op, stream: nat)
    requires Sound(e) && stream in e.unacked
    ensures Do(e, op).table.dropped == e.table.dropped && e.table.log <= Do(e, op).table.log
  {
    hide Limit, IsLimit, Insert, SizeOf;
    if op.DoInsert? {
      InsertSound(e, op.f);
      InsertAllOrNothing(e.table, op.f);
      if Insert(e.table, op.f).1.Some? {
        InsertAppends(e.table, op.f);
      }
    }
  }
}
