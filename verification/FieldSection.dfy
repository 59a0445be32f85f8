/** Encoded field sections (section 4.5 of RFC 9204): what the encoder writes for a header
    list given its table, and what a decoder makes of it given its own. */
module FieldSection {
  import opened Bytes
  import opened Fields
  import opened FieldLines
  import opened InsertCount
  import opened PrefixInteger
  import opened TableModel

  // ---- Writing ------------------------------------------------------------

  /** The insert count a field needs: every match counts, used or not. */
  function NeededBy(t: Table, f: Field): nat {
    var m := FindEntry(t, f);
    if m.exact.Some? then m.exact.value + 1 else if m.name.Some? then m.name.value + 1 else 0
  }

  function RequiredCount(t: Table, headers: seq<Header>): nat {
    if headers == [] then 0
    else
      var before, last := RequiredCount(t, headers[..|headers| - 1]), NeededBy(t, headers[|headers| - 1].field);
      if last > before then last else before
  }

  /** Dynamic exact, then static exact, then dynamic name, then static name, then literal. */
  function LineFor(k: Codebook, t: Table, h: Header, base: nat): (line: Line)
    requires NeededBy(t, h.field) <= base
    ensures IsEmitted(line)
  {
    var dyn, fix := FindEntry(t, h.field), Find(k.fixed, h.field);
    if dyn.exact.Some? then IndexedDynamic(base - dyn.exact.value - 1)
    else if fix.exact.Some? then IndexedStatic(fix.exact.value)
    else if dyn.name.Some? then NameDynamic(base - dyn.name.value - 1, h.field.value, h.neverIndexed)
    else if fix.name.Some? then NameStatic(fix.name.value, h.field.value, h.neverIndexed)
    else LiteralName(h.field.name, h.field.value, h.neverIndexed)
  }

  function StaticLineFor(k: Codebook, h: Header): (line: Line)
    ensures IsEmitted(line)
  {
    var fix := Find(k.fixed, h.field);
    if fix.exact.Some? then IndexedStatic(fix.exact.value)
    else if fix.name.Some? then NameStatic(fix.name.value, h.field.value, h.neverIndexed)
    else LiteralName(h.field.name, h.field.value, h.neverIndexed)
  }

  function LinesFor(k: Codebook, t: Table, headers: seq<Header>, base: nat): (r: seq<Line>)
    requires forall h :: h in headers ==> NeededBy(t, h.field) <= base
    ensures |r| == |headers| && forall i :: 0 <= i < |r| ==> r[i] == LineFor(k, t, headers[i], base)
  {
    seq(|headers|, i requires 0 <= i < |headers| => LineFor(k, t, headers[i], base))
  }

  function StaticLinesFor(k: Codebook, headers: seq<Header>): (r: seq<Line>)
    ensures |r| == |headers| && forall i :: 0 <= i < |r| ==> r[i] == StaticLineFor(k, headers[i])
  {
    seq(|headers|, i requires 0 <= i < |headers| => StaticLineFor(k, headers[i]))
  }

  function EncodeLines(k: Codebook, lines: seq<Line>, useHuffman: bool): bytes
    requires Usable(k)
  {
    if lines == [] then []
    else EncodeLines(k, lines[..|lines| - 1], useHuffman) + EncodeLine(k, lines[|lines| - 1], useHuffman)
  }

  /** The base as its distance from the Required Insert Count, the sign saying on which side. */
  function EncodeBase(base: nat, ric: nat): (r: bytes)
    ensures |r| >= 1
  {
    SmallPowers();
    if base >= ric then Encode(base - ric, 7, 0) else Encode(ric - base - 1, 7, 0x80)
  }

  /** A section as any encoder may write it: Required Insert Count, base, lines. */
  function SectionAt(k: Codebook, encodedCount: nat, base: nat, ric: nat, lines: seq<Line>, useHuffman: bool): bytes
    requires Usable(k)
  {
    SmallPowers();
    Encode(encodedCount, 8, 0) + EncodeBase(base, ric) + EncodeLines(k, lines, useHuffman)
  }

  /** A section as this encoder writes it: the base equals the count. */
  function SectionOf(k: Codebook, encodedCount: nat, lines: seq<Line>, useHuffman: bool): bytes
    requires Usable(k)
  {
    SmallPowers();
    Encode(encodedCount, 8, 0) + [0] + EncodeLines(k, lines, useHuffman)
  }

  function StaticSection(k: Codebook, headers: seq<Header>, useHuffman: bool): bytes
    requires Usable(k)
  {
    SectionOf(k, 0, StaticLinesFor(k, headers), useHuffman)
  }

  function DynamicSection(k: Codebook, t: Table, headers: seq<Header>, maxCapacity: nat, useHuffman: bool): bytes
    requires Usable(k)
  {
    var ric := RequiredCount(t, headers);
    RequiredCountCovers(t, headers);
    SectionOf(k, EncodeCount(ric, maxCapacity), LinesFor(k, t, headers, ric), useHuffman)
  }

  lemma {:induction false} RequiredCountCovers(t: Table, headers: seq<Header>)
    ensures forall h :: h in headers ==> NeededBy(t, h.field) <= RequiredCount(t, headers)
  {
    if headers != [] {
      RequiredCountCovers(t, headers[..|headers| - 1]);
      assert headers == headers[..|headers| - 1] + [headers[|headers| - 1]];
    }
  }

  /** The count names a live entry: the youngest one that some header matches. */
  lemma {:induction false} RequiredCountIsLive(t: Table, headers: seq<Header>)
    ensures RequiredCount(t, headers) > 0 ==> t.dropped < RequiredCount(t, headers) <= |t.log|
  {
    if headers != [] {
      RequiredCountIsLive(t, headers[..|headers| - 1]);
      FindEntryFinds(t, headers[|headers| - 1].field);
    }
  }

  // ---- Reading ------------------------------------------------------------

  datatype Outcome = Blocked | Decoded(fields: seq<Field>) | Failed(error: QpackError)

  /** The field lines up to the end of the section; `total` octets of fields came before. */
  ghost function DecodeLines(k: Codebook, t: Table, data: bytes, base: nat, ric: nat, total: nat, maxSize: nat)
    : Result<seq<Field>>
    requires Usable(k)
    decreases |data|
  {
    if data == [] then Ok([])
    else
      var (f, n) :- DecodeLine(k, t, data, base, ric);
      if total + FieldSize(f) > maxSize then Err(DecodeFailed)
      else
        var rest :- DecodeLines(k, t, data[n..], base, ric, total + FieldSize(f), maxSize);
        Ok([f] + rest)
  }

  /** The Required Insert Count at the front of a section and the octets it takes. */
  function SectionCount(data: bytes, inserts: nat, maxCapacity: nat): (r: Result<(nat, nat)>)
    ensures r.Ok? ==> r.value.1 <= |data|
  {
    if |data| < 2 then Err(BufferTooShort)
    else
      var (enc, n) :- Decode(data, 8);
      var ric :- DecodeCount(enc, inserts, maxCapacity);
      Ok((ric, n))
  }

  /** The count that decoding records, whatever becomes of the rest. */
  function CountOf(data: bytes, inserts: nat, maxCapacity: nat): Result<nat> {
    var (ric, _) :- SectionCount(data, inserts, maxCapacity);
    Ok(ric)
  }

  /** The base, from its sign and distance, and the octets it takes. */
  function DecodeBase(data: bytes, ric: nat): (r: Result<(nat, nat)>)
    ensures r.Ok? ==> r.value.1 <= |data|
  {
    if data == [] then Err(BufferTooShort)
    else
      var (delta, n) :- Decode(data, 7);
      if data[0] / 128 % 2 == 1 then
        if ric <= delta then Err(DecodeFailed) else Ok((ric - delta - 1, n))
      else Ok((ric + delta, n))
  }

  ghost function DecodeBody(k: Codebook, t: Table, data: bytes, ric: nat, maxSize: nat): Result<seq<Field>>
    requires Usable(k)
  {
    var (base, n) :- DecodeBase(data, ric);
    DecodeLines(k, t, data[n..], base, ric, 0, maxSize)
  }

  ghost function DecodeSection(k: Codebook, t: Table, data: bytes, maxCapacity: nat, maxSize: nat): Outcome
    requires Usable(k)
  {
    match SectionCount(data, |t.log|, maxCapacity)
    case Err(e) => Failed(e)
    case Ok((ric, n)) =>
      if |t.log| < ric then Blocked
      else match DecodeBody(k, t, data[n..], ric, maxSize)
        case Err(e) => Failed(e)
        case Ok(fields) => Decoded(fields)
  }

  // ---- A section is read as it was meant ------------------------------------

  /** Up to entry `ric`, the reader's table has all that the writer's table has. */
  ghost predicate Covers(reader: Table, writer: Table, ric: nat) {
    && ric <= |reader.log| && ric <= |writer.log|
    && reader.log[..ric] == writer.log[..ric]
    && reader.dropped <= writer.dropped
  }

  lemma LineForDenotes(k: Codebook, writer: Table, reader: Table, h: Header, ric: nat)
    requires Usable(k) && NeededBy(writer, h.field) <= ric && (ric > 0 ==> Covers(reader, writer, ric))
    ensures LineField(k, reader, LineFor(k, writer, h, ric), ric, ric) == Ok(h.field)
  {
    var m := FindEntry(writer, h.field);
    FindEntryFinds(writer, h.field);
    if m.name.Some? && ric > 0 {
      assert reader.log[..ric][m.name.value] == writer.log[..ric][m.name.value];
    }
  }

  lemma StaticLineForDenotes(k: Codebook, reader: Table, h: Header, base: nat, ric: nat)
    requires Usable(k)
    ensures LineField(k, reader, StaticLineFor(k, h), base, ric) == Ok(h.field)
  {
  }

  lemma LineForSendable(k: Codebook, writer: Table, h: Header, ric: nat)
    requires Usable(k) && NeededBy(writer, h.field) <= ric <= |writer.log| && LiveCount(writer) <= MAX_VALUE
    requires FieldSize(h.field) <= MAX_VALUE
    ensures Sendable(LineFor(k, writer, h, ric)) && Sendable(StaticLineFor(k, h))
  {
    FindEntryFinds(writer, h.field);
  }

  /** What a reader makes of any lines: the fields they denote, up to the first line that denotes
      none, whose error it reports; and a list above the limit is refused. */
  lemma {:induction false} LinesRoundTrip(k: Codebook, t: Table, lines: seq<Line>, fields: seq<Field>,
                                          base: nat, ric: nat, total: nat, maxSize: nat, useHuffman: bool)
    requires Usable(k) && Denote(k, t, lines, fields, base, ric) && total <= maxSize
    ensures DecodeLines(k, t, EncodeLines(k, lines, useHuffman), base, ric, total, maxSize)
         == if total + SizeOf(fields) > maxSize then Err(DecodeFailed) else Meaning(k, t, lines, fields, base, ric)
  {
    hide DecodeLine, EncodeLine, LineField, Sendable;
    if lines == [] {
      assert EncodeLines(k, lines, useHuffman) == [];
    } else {
      EncodeLinesHead(k, lines, useHuffman);
      var head, rest := EncodeLine(k, lines[0], useHuffman), EncodeLines(k, lines[1..], useHuffman);
      LineRoundTrip(k, t, lines[0], base, ric, useHuffman, rest);
      assert (head + rest)[|head|..] == rest;
      if fields != [] {
        assert fields == [fields[0]] + fields[1..];
        if total + FieldSize(fields[0]) <= maxSize {
          LinesRoundTrip(k, t, lines[1..], fields[1..], base, ric, total + FieldSize(fields[0]), maxSize, useHuffman);
        }
      }
    }
  }

  /** The lines denote `fields`, and if there are more lines the next one denotes nothing. */
  predicate Denote(k: Codebook, t: Table, lines: seq<Line>, fields: seq<Field>, base: nat, ric: nat)
    requires |k.fixed| == STATIC_TABLE_LEN
  {
    && |fields| <= |lines|
    && (forall i :: 0 <= i < |lines| ==> Sendable(lines[i]))
    && (forall i :: 0 <= i < |fields| ==> LineField(k, t, lines[i], base, ric) == Ok(fields[i]))
    && (|fields| < |lines| ==> LineField(k, t, lines[|fields|], base, ric).Err?)
  }

  function Meaning(k: Codebook, t: Table, lines: seq<Line>, fields: seq<Field>, base: nat, ric: nat): Result<seq<Field>>
    requires |k.fixed| == STATIC_TABLE_LEN && Denote(k, t, lines, fields, base, ric)
  {
    if |fields| < |lines| then Err(LineField(k, t, lines[|fields|], base, ric).error) else Ok(fields)
  }

  /** No list above the limit is ever delivered, whatever the octets. */
  lemma {:induction false} DecodedFits(k: Codebook, t: Table, data: bytes, base: nat, ric: nat, total: nat,
                                       maxSize: nat)
    requires Usable(k) && total <= maxSize
    ensures var r := DecodeLines(k, t, data, base, ric, total, maxSize); r.Ok? ==> total + SizeOf(r.value) <= maxSize
    decreases |data|
  {
    hide DecodeLine;
    var line := DecodeLine(k, t, data, base, ric);
    if data != [] && line.Ok? && total + FieldSize(line.value.0) <= maxSize {
      DecodedFits(k, t, data[line.value.1..], base, ric, total + FieldSize(line.value.0), maxSize);
    }
  }

  lemma SectionFits(k: Codebook, t: Table, data: bytes, maxCapacity: nat, maxSize: nat)
    requires Usable(k)
    ensures var r := DecodeSection(k, t, data, maxCapacity, maxSize); r.Decoded? ==> SizeOf(r.fields) <= maxSize
  {
    hide DecodeLines, DecodeBase, SectionCount;
    var count := SectionCount(data, |t.log|, maxCapacity);
    if count.Ok? {
      var body := data[count.value.1..];
      var base := DecodeBase(body, count.value.0);
      if base.Ok? {
        DecodedFits(k, t, body[base.value.1..], base.value.0, count.value.0, 0, maxSize);
      }
    }
  }

  /** Lines behind which a further line is cut off are refused, whatever the lines mean. */
  lemma {:induction false} CutOffLine(k: Codebook, t: Table, lines: seq<Line>, fields: seq<Field>, last: Line,
                                      part: bytes, more: bytes, base: nat, ric: nat, total: nat, maxSize: nat,
                                      useHuffman: bool)
    requires Usable(k) && Denote(k, t, lines, fields, base, ric) && |fields| == |lines| && total <= maxSize
    requires Sendable(last) && LineField(k, t, last, base, ric).Ok?
    requires part != [] && more != [] && part + more == EncodeLine(k, last, useHuffman)
    ensures DecodeLines(k, t, EncodeLines(k, lines, useHuffman) + part, base, ric, total, maxSize)
         == Err(if total + SizeOf(fields) > maxSize then DecodeFailed else BufferTooShort)
    decreases |lines|
  {
    hide DecodeLine, EncodeLine, LineField, Sendable;
    if lines == [] {
      PartialLine(k, t, last, base, ric, useHuffman, part, more);
      assert [] + part == part;
    } else {
      EncodeLinesHead(k, lines, useHuffman);
      var head, rest := EncodeLine(k, lines[0], useHuffman), EncodeLines(k, lines[1..], useHuffman);
      LineRoundTrip(k, t, lines[0], base, ric, useHuffman, rest + part);
      assert head + rest + part == head + (rest + part) && (head + (rest + part))[|head|..] == rest + part;
      assert fields == [fields[0]] + fields[1..];
      if total + FieldSize(fields[0]) <= maxSize {
        CutOffLine(k, t, lines[1..], fields[1..], last, part, more, base, ric, total + FieldSize(fields[0]), maxSize,
                   useHuffman);
      }
    }
  }

  lemma {:induction false} EncodeLinesHead(k: Codebook, lines: seq<Line>, useHuffman: bool)
    requires Usable(k) && lines != []
    ensures EncodeLines(k, lines, useHuffman)
         == EncodeLine(k, lines[0], useHuffman) + EncodeLines(k, lines[1..], useHuffman)
  {
    hide EncodeLine;
    var n := |lines| - 1;
    if n == 0 {
      assert lines[..0] == [];
    } else {
      EncodeLinesHead(k, lines[..n], useHuffman);
      assert lines[..n][1..] == lines[1..][..n - 1];
    }
  }

  /** Every base is read back, on whichever side of the count it lies. */
  lemma BaseRoundTrip(base: nat, ric: nat, rest: bytes)
    requires base - ric <= MAX_VALUE && ric - base <= MAX_VALUE + 1
    ensures DecodeBase(EncodeBase(base, ric) + rest, ric) == Ok((base, |EncodeBase(base, ric)|))
  {
    hide Decode, Encode, Pow2;
    SmallPowers();
    var delta, flag := if base >= ric then base - ric else ric - base - 1, if base >= ric then 0 else 0x80;
    RoundTrip(delta, 7, flag, rest);
    var data := EncodeBase(base, ric) + rest;
    assert data[0] == Encode(delta, 7, flag)[0];
  }

  /** A base below 0 is refused. */
  lemma BaseBelowZero(delta: nat, ric: nat, rest: bytes)
    requires ric <= delta <= MAX_VALUE && IsFlag(0x80, 7)
    ensures DecodeBase(Encode(delta, 7, 0x80) + rest, ric) == Err(DecodeFailed)
  {
    hide Decode, Encode, Pow2;
    SmallPowers();
    RoundTrip(delta, 7, 0x80, rest);
    assert (Encode(delta, 7, 0x80) + rest)[0] == Encode(delta, 7, 0x80)[0];
  }

  /** How a reader takes a section apart whose count it restores as `ric`. */
  lemma SectionParts(k: Codebook, t: Table, encodedCount: nat, base: nat, lines: seq<Line>, ric: nat, maxCapacity: nat,
                     maxSize: nat, useHuffman: bool)
    requires Usable(k) && encodedCount <= MAX_VALUE && base - ric <= MAX_VALUE && ric - base <= MAX_VALUE + 1
    requires DecodeCount(encodedCount, |t.log|, maxCapacity) == Ok(ric)
    ensures var data := SectionAt(k, encodedCount, base, ric, lines, useHuffman);
      && SectionCount(data, |t.log|, maxCapacity) == Ok((ric, |Encode(encodedCount, 8, 0)|))
      && DecodeSection(k, t, data, maxCapacity, maxSize)
         == if |t.log| < ric then Blocked
            else match DecodeLines(k, t, EncodeLines(k, lines, useHuffman), base, ric, 0, maxSize)
              case Err(e) => Failed(e)
              case Ok(fields) => Decoded(fields)
  {
    hide Decode, DecodeCount, DecodeLines, EncodeLines, EncodeBase, DecodeBase, Pow2;
    SmallPowers();
    var prefix, sign, body := Encode(encodedCount, 8, 0), EncodeBase(base, ric), EncodeLines(k, lines, useHuffman);
    var data := prefix + sign + body;
    assert data == prefix + (sign + body);
    RoundTrip(encodedCount, 8, 0, sign + body);
    assert data[|prefix|..] == sign + body;
    BaseRoundTrip(base, ric, body);
    assert (sign + body)[|sign|..] == body;
  }

  /** What any legal encoder writes, whatever base it chooses, is read as what its lines mean at
      that base: relative and post-base references alike. */
  lemma AnySectionDecodes(k: Codebook, t: Table, encodedCount: nat, base: nat, lines: seq<Line>, fields: seq<Field>,
                          ric: nat, maxCapacity: nat, maxSize: nat, useHuffman: bool)
    requires Usable(k) && encodedCount <= MAX_VALUE && base - ric <= MAX_VALUE && ric - base <= MAX_VALUE + 1
    requires DecodeCount(encodedCount, |t.log|, maxCapacity) == Ok(ric) && Denote(k, t, lines, fields, base, ric)
    ensures DecodeSection(k, t, SectionAt(k, encodedCount, base, ric, lines, useHuffman), maxCapacity, maxSize)
         == if |t.log| < ric then Blocked
            else if SizeOf(fields) > maxSize then Failed(DecodeFailed)
            else match Meaning(k, t, lines, fields, base, ric)
              case Err(e) => Failed(e)
              case Ok(_) => Decoded(fields)
  {
    hide DecodeSection, DecodeLines, EncodeLines, SectionAt, DecodeCount, Denote, LineField;
    SectionParts(k, t, encodedCount, base, lines, ric, maxCapacity, maxSize, useHuffman);
    LinesRoundTrip(k, t, lines, fields, base, ric, 0, maxSize, useHuffman);
  }

  /** This encoder's sections have the base at the count. */
  lemma SectionIsAt(k: Codebook, encodedCount: nat, ric: nat, lines: seq<Line>, useHuffman: bool)
    requires Usable(k)
    ensures SectionOf(k, encodedCount, lines, useHuffman) == SectionAt(k, encodedCount, ric, ric, lines, useHuffman)
  {
    SmallPowers();
    assert Encode(0, 7, 0) == [0];
  }

  /** What the encoder demands of its surroundings: a reader with the same capacity limit,
      and a header list within the reader's size limit. */
  ghost predicate Fits(writer: Table, headers: seq<Header>, maxCapacity: nat, maxSize: nat) {
    && LiveCount(writer) <= MAX_VALUE && maxCapacity <= MAX_VALUE && maxSize <= MAX_VALUE
    && SizeOf(FieldsOf(headers)) <= maxSize
  }

  lemma {:induction false} SizeOfEach(fs: seq<Field>, i: nat)
    requires i < |fs|
    ensures FieldSize(fs[i]) <= SizeOf(fs)
  {
    if i > 0 {
      SizeOfEach(fs[1..], i - 1);
    }
  }

  /** A section without dynamic references is read back by any reader. */
  lemma StaticSectionDecodes(k: Codebook, reader: Table, headers: seq<Header>, maxCapacity: nat, maxSize: nat,
                             useHuffman: bool)
    requires Usable(k) && Fits(EMPTY, headers, maxCapacity, maxSize)
    ensures var data := StaticSection(k, headers, useHuffman);
      && CountOf(data, |reader.log|, maxCapacity) == Ok(0)
      && DecodeSection(k, reader, data, maxCapacity, maxSize) == Decoded(FieldsOf(headers))
  {
    hide DecodeSection, DecodeLines, EncodeLines, StaticLineFor, LineField, Sendable, Find, SectionAt, SectionCount;
    var lines, fields := StaticLinesFor(k, headers), FieldsOf(headers);
    StaticLinesDenote(k, reader, headers, maxCapacity, maxSize);
    SectionIsAt(k, 0, 0, lines, useHuffman);
    LinesRoundTrip(k, reader, lines, fields, 0, 0, 0, maxSize, useHuffman);
    SectionParts(k, reader, 0, 0, lines, 0, maxCapacity, maxSize, useHuffman);
  }

  lemma StaticLinesDenote(k: Codebook, reader: Table, headers: seq<Header>, maxCapacity: nat, maxSize: nat)
    requires Usable(k) && Fits(EMPTY, headers, maxCapacity, maxSize)
    ensures Denote(k, reader, StaticLinesFor(k, headers), FieldsOf(headers), 0, 0)
  {
    hide StaticLineFor, LineField, Sendable, Find;
    var lines, fields := StaticLinesFor(k, headers), FieldsOf(headers);
    forall i | 0 <= i < |lines|
      ensures Sendable(lines[i]) && LineField(k, reader, lines[i], 0, 0) == Ok(fields[i])
    {
      SizeOfEach(fields, i);
      StaticLineForDenotes(k, reader, headers[i], 0, 0);
      StaticSendable(k, headers[i]);
    }
  }

  lemma StaticSendable(k: Codebook, h: Header)
    requires Usable(k) && FieldSize(h.field) <= MAX_VALUE
    ensures Sendable(StaticLineFor(k, h))
  {
  }

  /** A section with dynamic references, at a reader whose insert count has the section's
      count in its window: it is blocked while the count is not reached, and once it is,
      a reader that has the referenced entries reads exactly what was written. */
  lemma DynamicSectionDecodes(k: Codebook, writer: Table, reader: Table, headers: seq<Header>, maxCapacity: nat,
                              maxSize: nat, useHuffman: bool)
    requires Usable(k) && Fits(writer, headers, maxCapacity, maxSize)
    requires RequiredCount(writer, headers) > 0 ==>
      MaxEntries(maxCapacity) > 0 && InWindow(RequiredCount(writer, headers), |reader.log|, MaxEntries(maxCapacity))
    requires 0 < RequiredCount(writer, headers) <= |reader.log|
        ==> Covers(reader, writer, RequiredCount(writer, headers))
    ensures var data, ric := DynamicSection(k, writer, headers, maxCapacity, useHuffman),
        RequiredCount(writer, headers);
      && CountOf(data, |reader.log|, maxCapacity) == Ok(ric)
      && DecodeSection(k, reader, data, maxCapacity, maxSize)
         == if |reader.log| < ric then Blocked else Decoded(FieldsOf(headers))
  {
    hide DecodeSection, SectionCount, DecodeLines, EncodeLines, LineFor, SectionOf, DecodeCount, EncodeCount, Covers,
        InWindow,
         RequiredCount, NeededBy;
    var ric := RequiredCount(writer, headers);
    RequiredCountCovers(writer, headers);
    RequiredCountIsLive(writer, headers);
    CountReads(ric, |reader.log|, maxCapacity);
    var lines := LinesFor(k, writer, headers, ric);
    SectionIsAt(k, EncodeCount(ric, maxCapacity), ric, lines, useHuffman);
    SectionParts(k, reader, EncodeCount(ric, maxCapacity), ric, lines, ric, maxCapacity, maxSize, useHuffman);
    if ric <= |reader.log| {
      DynamicLinesDecode(k, writer, reader, headers, ric, maxCapacity, maxSize, useHuffman);
    }
  }

  lemma CountReads(r: nat, inserts: nat, maxCapacity: nat)
    requires maxCapacity <= MAX_VALUE
    requires r > 0 ==> MaxEntries(maxCapacity) > 0 && InWindow(r, inserts, MaxEntries(maxCapacity))
    ensures EncodeCount(r, maxCapacity) <= MAX_VALUE
    ensures DecodeCount(EncodeCount(r, maxCapacity), inserts, maxCapacity) == Ok(r)
  {
    if r > 0 {
      CountRoundTrip(r, inserts, maxCapacity);
    }
  }

  lemma DynamicLinesDecode(k: Codebook, writer: Table, reader: Table, headers: seq<Header>, ric: nat, maxCapacity: nat,
                           maxSize: nat, useHuffman: bool)
    requires Usable(k) && Fits(writer, headers, maxCapacity, maxSize)
    requires forall h :: h in headers ==> NeededBy(writer, h.field) <= ric
    requires ric <= |writer.log| && (ric > 0 ==> Covers(reader, writer, ric))
    ensures DecodeLines(k, reader, EncodeLines(k, LinesFor(k, writer, headers, ric), useHuffman), ric, ric, 0, maxSize)
         == Ok(FieldsOf(headers))
  {
    hide DecodeLines, EncodeLines, LineFor, LineField, Sendable, NeededBy;
    var lines, fields := LinesFor(k, writer, headers, ric), FieldsOf(headers);
    DynamicLinesDenote(k, writer, reader, headers, ric, maxCapacity, maxSize);
    LinesRoundTrip(k, reader, lines, fields, ric, ric, 0, maxSize, useHuffman);
  }

  lemma DynamicLinesDenote(k: Codebook, writer: Table, reader: Table, headers: seq<Header>, ric: nat, maxCapacity: nat,
                           maxSize: nat)
    requires Usable(k) && Fits(writer, headers, maxCapacity, maxSize)
    requires forall h :: h in headers ==> NeededBy(writer, h.field) <= ric
    requires ric <= |writer.log| && (ric > 0 ==> Covers(reader, writer, ric))
    ensures Denote(k, reader, LinesFor(k, writer, headers, ric), FieldsOf(headers), ric, ric)
  {
    hide LineFor, LineField, Sendable, NeededBy;
    var lines, fields := LinesFor(k, writer, headers, ric), FieldsOf(headers);
    forall i | 0 <= i < |lines|
      ensures Sendable(lines[i]) && LineField(k, reader, lines[i], ric, ric) == Ok(fields[i])
    {
      assert headers[i] in headers;
      SizeOfEach(fields, i);
      LineForDenotes(k, writer, reader, headers[i], ric);
      LineForSendable(k, writer, headers[i], ric);
    }
  }
}
