/** Field sections octet by octet: which representation each header gets, that the wish to keep
    a header out of every table is on the wire, and the example sections of RFC 9204. */
module SectionOctets {
  import opened Bytes
  import opened Fields
  import opened FieldLines
  import opened FieldSection
  import opened InsertCount
  import opened PrefixInteger
  import opened StringLiteral
  import opened TableModel
  import opened EncoderModel

  // ---- The first octet of a line ----------------------------------------------

  /** The patterns of sections 4.5.2 to 4.5.6 of RFC 9204: 11, 10, 01N1, 01N0, 001N, 0001, 0000N. */
  lemma LineStart(k: Codebook, line: Line, useHuffman: bool)
    requires Usable(k)
    ensures var b := EncodeLine(k, line, useHuffman)[0];
      match line
      case IndexedStatic(_) => b / 64 == 3
      case IndexedDynamic(_) => b / 64 == 2
      case NameStatic(_, _, never) => b / 16 == if never then 7 else 5
      case NameDynamic(_, _, never) => b / 16 == if never then 6 else 4
      case LiteralName(_, _, never) => b / 16 == if never then 3 else 2
      case IndexedPostBase(_) => b / 16 == 1
      case NamePostBase(_, _, never) => b / 8 == if never then 1 else 0
  {
    hide Encode, EncodeString, Pow2;
    SmallPowers();
    var head := EncodeHead(k, line, useHuffman);
    assert EncodeLine(k, line, useHuffman)[0] == head[0];
  }

  /** The first octets of the field lines in `data`, as a reader finds them. */
  ghost function FirstOctets(k: Codebook, t: Table, data: bytes, base: nat, ric: nat): Result<bytes>
    requires Usable(k)
    decreases |data|
  {
    if data == [] then Ok([])
    else
      var (_, n) :- DecodeLine(k, t, data, base, ric);
      var rest :- FirstOctets(k, t, data[n..], base, ric);
      Ok([data[0]] + rest)
  }

  ghost function LineStarts(k: Codebook, t: Table, section: bytes, maxCapacity: nat): Result<bytes>
    requires Usable(k)
  {
    var (ric, n) :- SectionCount(section, |t.log|, maxCapacity);
    var (base, m) :- DecodeBase(section[n..], ric);
    FirstOctets(k, t, section[n..][m..], base, ric)
  }

  lemma {:induction false} FirstOctetsAre(k: Codebook, t: Table, lines: seq<Line>, fields: seq<Field>, base: nat,
                                          ric: nat, useHuffman: bool)
    requires Usable(k) && Denote(k, t, lines, fields, base, ric) && |fields| == |lines|
    ensures var r := FirstOctets(k, t, EncodeLines(k, lines, useHuffman), base, ric);
      && r.Ok? && |r.value| == |lines|
      && forall i :: 0 <= i < |lines| ==> r.value[i] == EncodeLine(k, lines[i], useHuffman)[0]
  {
    hide DecodeLine, EncodeLine, LineField, Sendable;
    if lines == [] {
      assert EncodeLines(k, lines, useHuffman) == [];
    } else {
      EncodeLinesHead(k, lines, useHuffman);
      var head, rest := EncodeLine(k, lines[0], useHuffman), EncodeLines(k, lines[1..], useHuffman);
      LineRoundTrip(k, t, lines[0], base, ric, useHuffman, rest);
      assert (head + rest)[|head|..] == rest && (head + rest)[0] == head[0];
      FirstOctetsAre(k, t, lines[1..], fields[1..], base, ric, useHuffman);
    }
  }

  lemma StartsOf(k: Codebook, t: Table, encodedCount: nat, lines: seq<Line>, fields: seq<Field>, ric: nat,
                 maxCapacity: nat, useHuffman: bool)
    requires Usable(k) && encodedCount <= MAX_VALUE && DecodeCount(encodedCount, |t.log|, maxCapacity) == Ok(ric)
    requires Denote(k, t, lines, fields, ric, ric) && |fields| == |lines|
    ensures var r := LineStarts(k, t, SectionOf(k, encodedCount, lines, useHuffman), maxCapacity);
      && r.Ok? && |r.value| == |lines|
      && forall i :: 0 <= i < |lines| ==> r.value[i] == EncodeLine(k, lines[i], useHuffman)[0]
  {
    hide DecodeCount, EncodeLines, EncodeLine, Denote, EncodeBase, DecodeBase, Decode, Encode, Pow2;
    SmallPowers();
    SectionIsAt(k, encodedCount, ric, lines, useHuffman);
    SectionParts(k, t, encodedCount, ric, lines, ric, maxCapacity, 0, useHuffman);
    var prefix, sign, body := Encode(encodedCount, 8, 0), EncodeBase(ric, ric), EncodeLines(k, lines, useHuffman);
    BaseRoundTrip(ric, ric, body);
    assert (prefix + sign + body)[|prefix|..] == sign + body && (sign + body)[|sign|..] == body;
    FirstOctetsAre(k, t, lines, fields, ric, ric, useHuffman);
  }

  // ---- Which representation a header gets ---------------------------------------

  ghost predicate Live(t: Table, f: Field) {
    exists a :: t.dropped <= a < |t.log| && t.log[a] == f
  }

  ghost predicate LiveName(t: Table, name: bytes) {
    exists a :: t.dropped <= a < |t.log| && t.log[a].name == name
  }

  ghost predicate FixedName(k: Codebook, name: bytes) {
    exists i :: 0 <= i < |k.fixed| && k.fixed[i].name == name
  }

  /** What the first octet of a header's line has to be, given the two tables. */
  ghost predicate Says(k: Codebook, t: Table, h: Header, b: byte) {
    if Live(t, h.field) then b / 64 == 2
    else if h.field in k.fixed then b / 64 == 3
    else if LiveName(t, h.field.name) then b / 16 == if h.neverIndexed then 6 else 4
    else if FixedName(k, h.field.name) then b / 16 == if h.neverIndexed then 7 else 5
    else b / 16 == if h.neverIndexed then 3 else 2
  }

  /** The N bit of a literal representation, 01NT.... or 001N....; the others have none. */
  function NeverBit(b: byte): Option<bool> {
    if b / 64 == 1 then Some(b / 32 % 2 == 1) else if b / 32 == 1 then Some(b / 16 % 2 == 1) else None
  }

  lemma SaysNever(k: Codebook, t: Table, h: Header, b: byte)
    requires Says(k, t, h, b)
    ensures NeverBit(b) == if Live(t, h.field) || h.field in k.fixed then None else Some(h.neverIndexed)
  {
    hide Live, LiveName, FixedName;
  }

  lemma ChoiceSays(k: Codebook, t: Table, h: Header, base: nat, useHuffman: bool)
    requires Usable(k) && NeededBy(t, h.field) <= base
    ensures Says(k, t, h, EncodeLine(k, LineFor(k, t, h, base), useHuffman)[0])
  {
    hide EncodeLine, FindEntry;
    FindEntryFinds(t, h.field);
    LineStart(k, LineFor(k, t, h, base), useHuffman);
  }

  lemma StaticChoiceSays(k: Codebook, h: Header, useHuffman: bool)
    requires Usable(k)
    ensures Says(k, EMPTY, h, EncodeLine(k, StaticLineFor(k, h), useHuffman)[0])
  {
    hide EncodeLine;
    LineStart(k, StaticLineFor(k, h), useHuffman);
  }

  /** Line by line, a section without dynamic references says on the wire what it must: which
      kind of reference it is, and whether the header may ever be put into a table. */
  lemma StaticSectionSays(k: Codebook, reader: Table, headers: seq<Header>, maxCapacity: nat, maxSize: nat,
                          useHuffman: bool)
    requires Usable(k) && Fits(EMPTY, headers, maxCapacity, maxSize)
    ensures var r := LineStarts(k, reader, StaticSection(k, headers, useHuffman), maxCapacity);
      && r.Ok? && |r.value| == |headers|
      && forall i :: 0 <= i < |headers| ==>
          && Says(k, EMPTY, headers[i], r.value[i])
          && (NeverBit(r.value[i]).Some? ==> NeverBit(r.value[i]).value == headers[i].neverIndexed)
  {
    hide EncodeLine, StaticLineFor, LineStarts, Says, LineField, Sendable, SectionOf, FieldSize;
    var lines := StaticLinesFor(k, headers);
    StaticLinesDenote(k, reader, headers, maxCapacity, maxSize);
    StartsOf(k, reader, 0, lines, FieldsOf(headers), 0, maxCapacity, useHuffman);
    forall i | 0 <= i < |headers|
      ensures Says(k, EMPTY, headers[i], EncodeLine(k, lines[i], useHuffman)[0])
    {
      StaticChoiceSays(k, headers[i], useHuffman);
    }
    SayNever(k, EMPTY, headers, LineStarts(k, reader, StaticSection(k, headers, useHuffman), maxCapacity).value);
  }

  lemma SayNever(k: Codebook, t: Table, headers: seq<Header>, starts: bytes)
    requires |starts| == |headers| && forall i :: 0 <= i < |headers| ==> Says(k, t, headers[i], starts[i])
    ensures forall i :: 0 <= i < |headers| ==>
        NeverBit(starts[i]).Some? ==> NeverBit(starts[i]).value == headers[i].neverIndexed
  {
    hide Says;
    forall i | 0 <= i < |headers|
      ensures NeverBit(starts[i]).Some? ==> NeverBit(starts[i]).value == headers[i].neverIndexed
    {
      SaysNever(k, t, headers[i], starts[i]);
    }
  }

  lemma DynamicSectionSays(k: Codebook, writer: Table, reader: Table, headers: seq<Header>, maxCapacity: nat,
                           maxSize: nat, useHuffman: bool)
    requires Usable(k) && Fits(writer, headers, maxCapacity, maxSize)
    requires RequiredCount(writer, headers) > 0 ==>
      && MaxEntries(maxCapacity) > 0 && InWindow(RequiredCount(writer, headers), |reader.log|, MaxEntries(maxCapacity))
      && Covers(reader, writer, RequiredCount(writer, headers))
    ensures var r := LineStarts(k, reader, DynamicSection(k, writer, headers, maxCapacity, useHuffman), maxCapacity);
      && r.Ok? && |r.value| == |headers|
      && forall i :: 0 <= i < |headers| ==>
          && Says(k, writer, headers[i], r.value[i])
          && (NeverBit(r.value[i]).Some? ==> NeverBit(r.value[i]).value == headers[i].neverIndexed)
  {
    hide EncodeLine, LineFor, LineStarts, Says, LineField, Sendable, SectionOf, FieldSize, RequiredCount, NeededBy,
        InWindow, Covers, DecodeCount, EncodeCount;
    var ric := RequiredCount(writer, headers);
    RequiredCountCovers(writer, headers);
    RequiredCountIsLive(writer, headers);
    CountReads(ric, |reader.log|, maxCapacity);
    var lines := LinesFor(k, writer, headers, ric);
    DynamicLinesDenote(k, writer, reader, headers, ric, maxCapacity, maxSize);
    StartsOf(k, reader, EncodeCount(ric, maxCapacity), lines, FieldsOf(headers), ric, maxCapacity, useHuffman);
    forall i | 0 <= i < |headers|
      ensures Says(k, writer, headers[i], EncodeLine(k, lines[i], useHuffman)[0])
    {
      assert headers[i] in headers;
      ChoiceSays(k, writer, headers[i], ric, useHuffman);
    }
    SayNever(k, writer, headers,
             LineStarts(k, reader, DynamicSection(k, writer, headers, maxCapacity, useHuffman), maxCapacity).value);
  }

  // ---- The count of a section ----------------------------------------------------

  /** `n` is one more than the newest live entry that is equal to the field, or else has its
      name; without either it is 0. */
  ghost predicate CountsNewest(t: Table, f: Field, n: nat) {
    if Live(t, f) then 0 < n <= |t.log| && t.log[n - 1] == f && (forall a :: n <= a < |t.log| ==> t.log[a] != f)
    else if LiveName(t, f.name) then
      0 < n <= |t.log| && t.log[n - 1].name == f.name && (forall a :: n <= a < |t.log| ==> t.log[a].name != f.name)
    else n == 0
  }

  lemma NeededIsNewest(t: Table, f: Field)
    ensures CountsNewest(t, f, NeededBy(t, f))
  {
    hide FindEntry;
    FindEntryFinds(t, f);
  }

  /** The Required Insert Count is the largest that any header needs, and no larger. */
  lemma {:induction false} RequiredCountIsLargest(t: Table, headers: seq<Header>)
    ensures forall h :: h in headers ==> CountsNewest(t, h.field, NeededBy(t, h.field))
    ensures forall h :: h in headers ==> NeededBy(t, h.field) <= RequiredCount(t, headers)
    ensures RequiredCount(t, headers) == 0
         || exists h :: h in headers && NeededBy(t, h.field) == RequiredCount(t, headers)
    decreases |headers|
  {
    hide NeededBy, CountsNewest;
    forall h | h in headers
      ensures CountsNewest(t, h.field, NeededBy(t, h.field))
    {
      NeededIsNewest(t, h.field);
    }
    if headers != [] {
      var n := |headers| - 1;
      RequiredCountIsLargest(t, headers[..n]);
      assert headers == headers[..n] + [headers[n]];
    }
  }

  /** The encoder uses its dynamic table exactly when it may and when that helps: some header has a
      match there, and one more stream may block. */
  lemma UsesDynamicExactly(e: Encoder, headers: seq<Header>, streams: nat)
    ensures SectionCountFor(e, headers, streams) > 0 <==>
      && e.maxCapacity > 0 && streams < e.peerMaxBlocked
      && exists h :: h in headers && (Live(e.table, h.field) || LiveName(e.table, h.field.name))
  {
    hide NeededBy;
    RequiredCountIsLargest(e.table, headers);
    if LiveCount(e.table) == 0 {
      assert forall f :: !Live(e.table, f) && !LiveName(e.table, f.name);
    }
    forall h | h in headers
      ensures NeededBy(e.table, h.field) > 0 <==> Live(e.table, h.field) || LiveName(e.table, h.field.name)
    {
      assert CountsNewest(e.table, h.field, NeededBy(e.table, h.field));
    }
  }

  // ---- The examples of the standard ----------------------------------------------

  /** The section of Appendix B.2 of RFC 9204: base 0 below a count of 2, so both lines are
      post-base references. */
  lemma PostBaseExample(k: Codebook, t: Table, maxSize: nat)
    requires Usable(k) && |t.log| == 2 && t.dropped == 0 && SizeOf(t.log) <= maxSize
    ensures DecodeSection(k, t, [0x03, 0x81, 0x10, 0x11], 220, maxSize) == Decoded(t.log)
  {
    hide DecodeSection, SizeOf, EncodeLines, EncodeBase, Encode, Pow2, DecodeCount, LineField;
    var lines := [IndexedPostBase(0), IndexedPostBase(1)];
    PostBaseOctets(k);
    assert SectionAt(k, 3, 0, 2, lines, false) == [0x03, 0x81, 0x10, 0x11];
    PostBaseLines(k, t);
    AnySectionDecodes(k, t, 3, 0, lines, t.log, 2, 220, maxSize, false);
  }

  lemma PostBaseOctets(k: Codebook)
    requires Usable(k)
    ensures EncodeLines(k, [IndexedPostBase(0), IndexedPostBase(1)], false) == [0x10, 0x11]
    ensures IsFlag(0, 8) && Encode(3, 8, 0) == [0x03] && EncodeBase(0, 2) == [0x81]
  {
    SmallPowers();
    var lines := [IndexedPostBase(0), IndexedPostBase(1)];
    assert lines[..1] == [IndexedPostBase(0)] && lines[..1][..0] == [];
    assert EncodeLines(k, lines[..1], false) == [0x10];
  }

  lemma PostBaseLines(k: Codebook, t: Table)
    requires Usable(k) && |t.log| == 2 && t.dropped == 0
    ensures Denote(k, t, [IndexedPostBase(0), IndexedPostBase(1)], t.log, 0, 2)
    ensures DecodeCount(3, 2, 220) == Ok(2)
  {
    CountExamples();
    hide PostBaseRef, DecodeCount;
    ReferencesMean(t, 0, 0, 2);
    ReferencesMean(t, 1, 0, 2);
  }

  /** The section of Appendix B.4: relative to base 4, the newest entry, a static field, and the
      oldest but one. */
  lemma RelativeExample(k: Codebook, t: Table, maxSize: nat)
    requires Usable(k) && |t.log| == 4 && t.dropped == 0 && SizeOf([t.log[3], k.fixed[1], t.log[2]]) <= maxSize
    ensures DecodeSection(k, t, [0x05, 0x00, 0x80, 0xc1, 0x81], 220, maxSize)
         == Decoded([t.log[3], k.fixed[1], t.log[2]])
  {
    hide DecodeSection, SizeOf, EncodeLines, EncodeBase, Encode, Pow2, DecodeCount, LineField;
    var lines, fields := [IndexedDynamic(0), IndexedStatic(1), IndexedDynamic(1)], [t.log[3], k.fixed[1], t.log[2]];
    RelativeOctets(k);
    assert SectionAt(k, 5, 4, 4, lines, false) == [0x05, 0x00, 0x80, 0xc1, 0x81];
    RelativeLines(k, t);
    AnySectionDecodes(k, t, 5, 4, lines, fields, 4, 220, maxSize, false);
  }

  lemma RelativeOctets(k: Codebook)
    requires Usable(k)
    ensures EncodeLines(k, [IndexedDynamic(0), IndexedStatic(1), IndexedDynamic(1)], false) == [0x80, 0xc1, 0x81]
    ensures IsFlag(0, 8) && Encode(5, 8, 0) == [0x05] && EncodeBase(4, 4) == [0x00]
  {
    SmallPowers();
    var lines := [IndexedDynamic(0), IndexedStatic(1), IndexedDynamic(1)];
    assert lines[..2] == [IndexedDynamic(0), IndexedStatic(1)] && lines[..2][..1] == [IndexedDynamic(0)];
    assert [IndexedDynamic(0)][..0] == [];
    assert EncodeLines(k, lines[..2][..1], false) == [0x80];
    assert EncodeLines(k, lines[..2], false) == [0x80, 0xc1];
  }

  lemma RelativeLines(k: Codebook, t: Table)
    requires Usable(k) && |t.log| == 4 && t.dropped == 0
    ensures Denote(k, t, [IndexedDynamic(0), IndexedStatic(1), IndexedDynamic(1)], [t.log[3], k.fixed[1], t.log[2]], 4,
                   4)
    ensures DecodeCount(5, 4, 220) == Ok(4)
  {
    CountExamples();
    hide DynamicRef, StaticRef, DecodeCount;
    ReferencesMean(t, 0, 4, 4);
    ReferencesMean(t, 1, 4, 4);
    StaticMeans(k, 1);
  }

  lemma CountExamples()
    ensures DecodeCount(3, 2, 220) == Ok(2) && DecodeCount(5, 4, 220) == Ok(4)
  {
  }
}
