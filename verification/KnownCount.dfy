/** What the encoder must know from what it sent and heard: the Known Received Count and the
    outstanding sections (section 2.1.4 of RFC 9204), told from the history alone. */
module KnownCount {
  import opened Bytes
  import opened EncoderModel
  import opened PrefixInteger
  import D = DecoderInstructions

  /** A section sent with its Required Insert Count, or a report read off the decoder stream. */
  datatype Event = Sent(stream: nat, ric: nat) | Heard(report: D.Report)

  /** The counts above 0 of the sections sent on a stream since it was last cancelled. */
  function SentOn(h: seq<Event>, stream: nat): seq<nat> {
    if h == [] then []
    else
      var before, last := SentOn(h[..|h| - 1], stream), h[|h| - 1];
      match last
      case Sent(s, ric) => if s == stream && ric > 0 then before + [ric] else before
      case Heard(report) => if report == D.StreamCancel(stream) then [] else before
  }

  /** How many acknowledgments of a stream have been heard since it was last cancelled. */
  function AcksOn(h: seq<Event>, stream: nat): nat {
    if h == [] then 0
    else
      var before, last := AcksOn(h[..|h| - 1], stream), h[|h| - 1];
      if last == Heard(D.StreamCancel(stream)) then 0
      else if last == Heard(D.SectionAck(stream)) then before + 1 else before
  }

  function Increments(h: seq<Event>): nat {
    if h == [] then 0
    else
      var before, last := Increments(h[..|h| - 1]), h[|h| - 1];
      if last.Heard? && last.report.CountIncrement? then before + last.report.increment else before
  }

  predicate IsAck(h: seq<Event>, p: nat) {
    p < |h| && h[p].Heard? && h[p].report.SectionAck?
  }

  /** An acknowledgment has a section to settle: there are more sections than acknowledgments. */
  predicate Settles(h: seq<Event>, p: nat)
    requires IsAck(h, p)
  {
    AcksOn(h[..p], h[p].report.stream) < |SentOn(h[..p], h[p].report.stream)|
  }

  /** The count of the section that an acknowledgment settles: the j-th acknowledgment on a
      stream settles the j-th section. */
  function AckedCount(h: seq<Event>, p: nat): nat
    requires IsAck(h, p) && Settles(h, p)
  {
    SentOn(h[..p], h[p].report.stream)[AcksOn(h[..p], h[p].report.stream)]
  }

  ghost predicate Matched(h: seq<Event>) {
    forall p: nat :: IsAck(h, p) ==> Settles(h, p)
  }

  /** `m` is the largest of the sum of all increments and the counts of all settled sections. */
  ghost predicate IsKnown(h: seq<Event>, m: nat)
    requires Matched(h)
  {
    && Increments(h) <= m
    && (forall p: nat :: IsAck(h, p) ==> AckedCount(h, p) <= m)
    && (m == Increments(h) || exists p: nat :: IsAck(h, p) && AckedCount(h, p) == m)
  }

  /** The sections that are neither settled nor cancelled, oldest first. */
  ghost predicate Unsettled(h: seq<Event>, unacked: Sections) {
    forall stream: nat ::
      && AcksOn(h, stream) <= |SentOn(h, stream)|
      && Of(unacked, stream) == SentOn(h, stream)[AcksOn(h, stream)..]
  }

  /** The encoder's state is what the history says it must be. */
  ghost predicate Books(e: Encoder, known: nat, h: seq<Event>) {
    Matched(h) && known == Increments(h) && IsKnown(h, e.known) && Unsettled(h, e.unacked)
  }

  lemma NoHistory(e: Encoder)
    requires e.known == 0 && e.unacked == map[]
    ensures Books(e, 0, [])
  {
  }

  // ---- One event more -----------------------------------------------------------

  /** What the event added to a history changes. */
  lemma SnocCounts(h: seq<Event>, x: Event)
    ensures Increments(h + [x])
         == Increments(h) + if x.Heard? && x.report.CountIncrement? then x.report.increment else 0
    ensures forall stream: nat ::
        (AcksOn(h + [x], stream)
         == if x == Heard(D.StreamCancel(stream)) then 0
             else AcksOn(h, stream) + if x == Heard(D.SectionAck(stream)) then 1 else 0)
    ensures forall stream: nat ::
        (SentOn(h + [x], stream)
         == if x == Heard(D.StreamCancel(stream)) then []
             else SentOn(h, stream) + if x.Sent? && x.stream == stream && x.ric > 0 then [x.ric] else [])
  {
    assert (h + [x])[..|h|] == h && (h + [x])[|h|] == x;
    forall stream: nat
      ensures SentOn(h, stream) + [] == SentOn(h, stream)
    {
    }
  }

  /** Acknowledgments heard before are matched as before. */
  lemma SameAck(h: seq<Event>, x: Event, p: nat)
    requires p < |h|
    ensures IsAck(h + [x], p) <==> IsAck(h, p)
    ensures IsAck(h, p) ==>
      && (Settles(h + [x], p) <==> Settles(h, p))
      && (Settles(h, p) ==> AckedCount(h + [x], p) == AckedCount(h, p))
  {
    hide SentOn, AcksOn;
    assert (h + [x])[..p] == h[..p] && (h + [x])[p] == h[p];
  }

  lemma NewAck(h: seq<Event>, x: Event)
    ensures IsAck(h + [x], |h|) <==> x.Heard? && x.report.SectionAck?
    ensures IsAck(h + [x], |h|) ==>
      var stream := x.report.stream;
      && (Settles(h + [x], |h|) <==> AcksOn(h, stream) < |SentOn(h, stream)|)
      && (Settles(h + [x], |h|) ==> AckedCount(h + [x], |h|) == SentOn(h, stream)[AcksOn(h, stream)])
  {
    hide SentOn, AcksOn;
    assert (h + [x])[..|h|] == h && (h + [x])[|h|] == x;
  }

  lemma SnocMatched(h: seq<Event>, x: Event)
    requires Matched(h) && (IsAck(h + [x], |h|) ==> Settles(h + [x], |h|))
    ensures Matched(h + [x])
  {
    hide IsAck, Settles;
    forall p: nat | IsAck(h + [x], p)
      ensures Settles(h + [x], p)
    {
      if p < |h| {
        SameAck(h, x, p);
      } else {
        BeyondIsNoAck(h + [x], p);
      }
    }
  }

  lemma BeyondIsNoAck(h: seq<Event>, p: nat)
    ensures IsAck(h, p) ==> p < |h|
  {
  }

  /** An event that is no acknowledgment can only raise the sum of the increments. */
  lemma SnocKnown(h: seq<Event>, x: Event, known: nat)
    requires Matched(h) && IsKnown(h, known) && !IsAck(h + [x], |h|) && Matched(h + [x])
    requires Increments(h) <= Increments(h + [x])
    ensures IsKnown(h + [x], if Increments(h + [x]) > known then Increments(h + [x]) else known)
  {
    hide IsAck, Settles, AckedCount, Increments;
    forall p: nat | IsAck(h + [x], p)
      ensures AckedCount(h + [x], p) <= known
    {
      BeyondIsNoAck(h + [x], p);
      SameAck(h, x, p);
    }
    if Increments(h + [x]) <= known && known != Increments(h) {
      var p: nat :| IsAck(h, p) && AckedCount(h, p) == known;
      BeyondIsNoAck(h, p);
      SameAck(h, x, p);
    }
  }

  /** An acknowledgment can raise the maximum to the count it settles. */
  lemma SnocAcked(h: seq<Event>, x: Event, known: nat)
    requires Matched(h) && IsKnown(h, known) && IsAck(h + [x], |h|) && Matched(h + [x])
    requires Increments(h) == Increments(h + [x])
    ensures var top := AckedCount(h + [x], |h|); IsKnown(h + [x], if top > known then top else known)
  {
    hide IsAck, Settles, AckedCount, Increments;
    forall p: nat | IsAck(h + [x], p) && p < |h|
      ensures AckedCount(h + [x], p) <= known
    {
      SameAck(h, x, p);
    }
    forall p: nat | IsAck(h + [x], p)
      ensures p <= |h|
    {
      BeyondIsNoAck(h + [x], p);
    }
    if AckedCount(h + [x], |h|) <= known && known != Increments(h) {
      var p: nat :| IsAck(h, p) && AckedCount(h, p) == known;
      BeyondIsNoAck(h, p);
      SameAck(h, x, p);
    }
  }

  // ---- The operations keep the books ---------------------------------------------

  /** Sending a section, as `encode` and `track_section` do together. */
  lemma SendKeepsBooks(e: Encoder, known: nat, h: seq<Event>, stream: nat, ric: nat)
    requires Books(e, known, h)
    ensures Books(TrackSection(e, stream, ric), known, h + [Sent(stream, ric)])
  {
    hide SentOn, AcksOn, Increments, IsAck, Settles, IsKnown, Limit, Unsettled;
    var x := Sent(stream, ric);
    SnocCounts(h, x);
    NewAck(h, x);
    SnocMatched(h, x);
    SnocKnown(h, x, e.known);
    TopIsKnown(h, e.known);
    SentRest(e, known, h, stream, ric);
  }

  lemma SentRest(e: Encoder, known: nat, h: seq<Event>, stream: nat, ric: nat)
    requires Books(e, known, h)
    ensures Unsettled(h + [Sent(stream, ric)], TrackSection(e, stream, ric).unacked)
  {
    hide SentOn, AcksOn, Increments, IsKnown, Matched, Limit;
    var g, u := h + [Sent(stream, ric)], TrackSection(e, stream, ric).unacked;
    SnocCounts(h, Sent(stream, ric));
    forall st: nat
      ensures AcksOn(g, st) <= |SentOn(g, st)| && Of(u, st) == SentOn(g, st)[AcksOn(g, st)..]
    {
      var more := if st == stream && ric > 0 then [ric] else [];
      assert SentOn(g, st) == SentOn(h, st) + more && AcksOn(g, st) == AcksOn(h, st);
      assert (SentOn(h, st) + more)[AcksOn(h, st)..] == SentOn(h, st)[AcksOn(h, st)..] + more;
      assert Of(u, st) == Of(e.unacked, st) + more;
    }
  }

  lemma TopIsKnown(h: seq<Event>, known: nat)
    requires Matched(h) && IsKnown(h, known)
    ensures Increments(h) <= known
  {
  }

  lemma IncrementKeepsBooks(e: Encoder, known: nat, h: seq<Event>, n: nat)
    requires Books(e, known, h)
    ensures Books(Acknowledge(e, known + n), known + n, h + [Heard(D.CountIncrement(n))])
  {
    hide SentOn, AcksOn, Increments, IsAck, Settles, IsKnown, Limit;
    var x := Heard(D.CountIncrement(n));
    SnocCounts(h, x);
    NewAck(h, x);
    SnocMatched(h, x);
    SnocKnown(h, x, e.known);
    forall st: nat
      ensures SentOn(h, st) + [] == SentOn(h, st)
    {
    }
  }

  lemma CancelKeepsBooks(e: Encoder, known: nat, h: seq<Event>, stream: nat)
    requires Books(e, known, h)
    ensures Books(CancelStream(e, stream), known, h + [Heard(D.StreamCancel(stream))])
  {
    hide SentOn, AcksOn, Increments, IsAck, Settles, IsKnown, Limit;
    var x := Heard(D.StreamCancel(stream));
    SnocCounts(h, x);
    NewAck(h, x);
    SnocMatched(h, x);
    SnocKnown(h, x, e.known);
    TopIsKnown(h, e.known);
    forall st: nat
      ensures SentOn(h, st) + [] == SentOn(h, st)
    {
    }
  }

  /** An acknowledgment is refused exactly when the history has no section for it. */
  lemma AckKeepsBooks(e: Encoder, known: nat, h: seq<Event>, stream: nat)
    requires Books(e, known, h)
    ensures AckSection(e, stream).Ok? <==> AcksOn(h, stream) < |SentOn(h, stream)|
    ensures AckSection(e, stream).Ok? ==>
      Books(AckSection(e, stream).value, known, h + [Heard(D.SectionAck(stream))])
  {
    hide SentOn, AcksOn, Increments, IsAck, Settles, IsKnown, Limit, AckedCount;
    assert Of(e.unacked, stream) == SentOn(h, stream)[AcksOn(h, stream)..];
    if AckSection(e, stream).Ok? {
      var x := Heard(D.SectionAck(stream));
      SnocCounts(h, x);
      NewAck(h, x);
      SnocMatched(h, x);
      SnocAcked(h, x, e.known);
      AckedRest(e, known, h, stream);
    }
  }

  lemma AckedRest(e: Encoder, known: nat, h: seq<Event>, stream: nat)
    requires Books(e, known, h) && AckSection(e, stream).Ok?
    ensures Unsettled(h + [Heard(D.SectionAck(stream))], AckSection(e, stream).value.unacked)
  {
    hide SentOn, AcksOn, Increments, IsKnown, Matched, Limit;
    SnocCounts(h, Heard(D.SectionAck(stream)));
    forall st: nat
      ensures SentOn(h, st) + [] == SentOn(h, st)
    {
    }
    assert Of(e.unacked, stream)[1..] == SentOn(h, stream)[AcksOn(h, stream) + 1..];
  }

  // ---- Draining the decoder stream -------------------------------------------------

  /** The complete reports at the front of some octets. */
  function Reports(data: bytes): seq<D.Report>
    decreases |data|
  {
    match D.DecodeReport(data)
    case Err(_) => []
    case Ok((report, n)) => [report] + Reports(data[n..])
  }

  function Hear(reports: seq<D.Report>): (r: seq<Event>)
    ensures |r| == |reports| && forall i :: 0 <= i < |r| ==> r[i] == Heard(reports[i])
  {
    seq(|reports|, i requires 0 <= i < |reports| => Heard(reports[i]))
  }

  lemma ObeyKeepsBooks(e: Encoder, known: nat, h: seq<Event>, report: D.Report, next: nat)
    requires Books(e, known, h) && D.Obey(e, report, next).Ok?
    requires next == if report.CountIncrement? then known + report.increment else known
    ensures Books(D.Obey(e, report, next).value, next, h + [Heard(report)])
  {
    hide Books, Acknowledge, CancelStream, AckSection;
    match report {
      case CountIncrement(n) => IncrementKeepsBooks(e, known, h, n);
      case StreamCancel(stream) => CancelKeepsBooks(e, known, h, stream);
      case SectionAck(stream) => AckKeepsBooks(e, known, h, stream);
    }
  }

  /** What is left behind the complete reports. */
  function Rest(data: bytes): bytes
    decreases |data|
  {
    match D.DecodeReport(data)
    case Err(_) => data
    case Ok((_, n)) => Rest(data[n..])
  }

  /** A report the history does not allow: an acknowledgment without a section, an increment of
      nothing, or one past the insertions that were made. */
  predicate Offends(h: seq<Event>, report: D.Report, inserts: nat) {
    match report
    case SectionAck(stream) => AcksOn(h, stream) >= |SentOn(h, stream)|
    case CountIncrement(n) => n == 0 || Increments(h) + n > inserts
    case StreamCancel(_) => false
  }

  /** One complete report at the front of the buffer. */
  lemma OneReport(e: Encoder, known: nat, h: seq<Event>, buffer: bytes, inserts: nat)
    requires Books(e, known, h) && D.DecodeReport(buffer).Ok?
    ensures var ((report, n), r) := (D.DecodeReport(buffer).value, D.Receive(buffer, known, inserts));
      && (r.Got? && D.Obey(e, report, r.known).Ok? <==> !Offends(h, report, inserts))
      && (r.Got? ==> r.report == report && r.consumed == n)
      && (r.Got? && D.Obey(e, report, r.known).Err? ==> r.known == known)
      && (r.Got? && D.Obey(e, report, r.known).Ok? ==>
            Books(D.Obey(e, report, r.known).value, r.known, h + [Heard(report)]))
  {
    hide D.DecodeReport, AckSection, CancelStream, Acknowledge, AcksOn, SentOn, Unsettled, IsKnown, Matched;
    var report, r := D.DecodeReport(buffer).value.0, D.Receive(buffer, known, inserts);
    if report.SectionAck? {
      AckKeepsBooks(e, known, h, report.stream);
    }
    if r.Got? && D.Obey(e, report, r.known).Ok? {
      ObeyKeepsBooks(e, known, h, report, r.known);
    }
  }

  /** What draining the decoder stream does, told from the history: the reports are obeyed in
      order up to the first one that the history does not allow; without one, up to the last
      complete one, and it is an error only if what follows is malformed. */
  lemma {:induction false} DrainIsExact(e: Encoder, known: nat, h: seq<Event>, buffer: bytes, inserts: nat)
      returns (m: nat)
    requires Books(e, known, h)
    ensures m <= |Reports(buffer)|
    ensures var (d, reports) := (D.Drain(e, known, buffer, inserts), Reports(buffer));
      && Books(d.encoder, d.known, h + Hear(reports[..m]))
      && (forall i :: 0 <= i < m ==> !Offends(h + Hear(reports[..i]), reports[i], inserts))
      && (m < |reports| ==> Offends(h + Hear(reports[..m]), reports[m], inserts))
      && (d.Idle? <==> m == |reports| && D.DecodeReport(Rest(buffer)) == Err(BufferTooShort))
    decreases |buffer|
  {
    hide Books, D.Obey, D.DecodeReport, Offends;
    var reports := Reports(buffer);
    if D.DecodeReport(buffer).Err? {
      m := 0;
      assert h + Hear(reports[..0]) == h;
      return;
    }
    var (report, n) := D.DecodeReport(buffer).value;
    OneReport(e, known, h, buffer, inserts);
    if Offends(h, report, inserts) {
      m := 0;
      assert h + Hear(reports[..0]) == h;
      return;
    }
    var r, rest := D.Receive(buffer, known, inserts), Reports(buffer[n..]);
    var k := DrainIsExact(D.Obey(e, report, r.known).value, r.known, h + [Heard(report)], buffer[n..], inserts);
    m := k + 1;
    assert reports[..0] == [] && h + Hear([]) == h;
    forall i | 0 <= i <= k
      ensures h + [Heard(report)] + Hear(rest[..i]) == h + Hear(reports[..i + 1])
    {
      assert reports[..i + 1] == [report] + rest[..i];
    }
    forall i | 0 <= i < m
      ensures !Offends(h + Hear(reports[..i]), reports[i], inserts)
    {
      assert i > 0 ==> reports[i] == rest[i - 1];
    }
  }

  /** Draining the decoder stream without an error hears all the reports that are complete. */
  lemma DrainKeepsBooks(e: Encoder, known: nat, h: seq<Event>, buffer: bytes, inserts: nat)
    requires Books(e, known, h) && D.Drain(e, known, buffer, inserts).Idle?
    ensures var d := D.Drain(e, known, buffer, inserts); Books(d.encoder, d.known, h + Hear(Reports(buffer)))
  {
    hide Books, D.Drain, D.DecodeReport, Offends;
    var m := DrainIsExact(e, known, h, buffer, inserts);
    assert Reports(buffer)[..|Reports(buffer)|] == Reports(buffer);
  }
}
