/** The mutable encoder of `qpack/encoder.rs`, proved against the value model. */
module DynamicEncoder {
  import opened Bytes
  import opened Fields
  import opened FieldLines
  import opened FieldSection
  import opened InsertCount
  import opened PrefixInteger
  import opened StringLiteral
  import opened TableModel
  import opened EncoderModel
  import T = DynamicTable

  // ---- Writing lines ----------------------------------------------------------

  method WriteOctet(buf: array<byte>, start: nat, b: byte) returns (r: Option<nat>)
    requires start <= buf.Length
    modifies buf
    ensures WriteResult(old(buf[..]), buf[..], start, [b], r)
  {
    if start >= buf.Length {
      return None;
    }
    buf[start] := b;
    assert buf[..] == Splice(old(buf[..]), start, [b]);
    return Some(1);
  }

  method WriteIndexed(k: Codebook, buf: array<byte>, start: nat, line: Line, useHuffman: bool) returns (r: Option<nat>)
    requires Usable(k) && start <= buf.Length && IsEmitted(line) && IsIndexed(line)
    modifies buf
    ensures WriteResult(old(buf[..]), buf[..], start, EncodeLine(k, line, useHuffman), r)
  {
    hide WriteResult, Encode;
    SmallPowers();
    match line {
      case IndexedStatic(index) => r := EncodeLenAt(buf, start, index, 6, 0xc0);
      case IndexedDynamic(relative) => r := EncodeLenAt(buf, start, relative, 6, 0x80);
    }
  }

  method WriteHead(k: Codebook, buf: array<byte>, start: nat, line: Line, useHuffman: bool) returns (r: Option<nat>)
    requires Usable(k) && start <= buf.Length && IsEmitted(line) && !IsIndexed(line)
    modifies buf
    ensures WriteResult(old(buf[..]), buf[..], start, EncodeHead(k, line, useHuffman), r)
  {
    hide WriteResult, Encode, EncodeString;
    SmallPowers();
    match line {
      case NameStatic(index, _, never) => r := EncodeLenAt(buf, start, index, 4, if never then 0x70 else 0x50);
      case NameDynamic(relative, _, never) => r := EncodeLenAt(buf, start, relative, 4, if never then 0x60 else 0x40);
      case LiteralName(name, _, never) => r := EncodeStringAt(k.huffman, buf, start, name, 3, if never then 0x30
                                                              else 0x20, useHuffman);
    }
  }

  method WriteValue(k: Codebook, buf: array<byte>, start: nat, value: bytes, useHuffman: bool) returns (r: Option<nat>)
    requires Usable(k) && start <= buf.Length
    modifies buf
    ensures WriteResult(old(buf[..]), buf[..], start, EncodeValue(k, value, useHuffman), r)
  {
    hide WriteResult, EncodeString;
    SmallPowers();
    r := EncodeStringAt(k.huffman, buf, start, value, 7, 0, useHuffman);
  }

  /** One field line at `start`: the reference or the name, then the value if there is one. */
  method WriteLine(k: Codebook, buf: array<byte>, start: nat, line: Line, useHuffman: bool) returns (r: Option<nat>)
    requires Usable(k) && start <= buf.Length && IsEmitted(line)
    modifies buf
    ensures WriteResult(old(buf[..]), buf[..], start, EncodeLine(k, line, useHuffman), r)
  {
    hide EncodeHead, EncodeValue;
    if IsIndexed(line) {
      r := WriteIndexed(k, buf, start, line, useHuffman);
      return;
    }
    ghost var a := buf[..];
    var n := WriteHead(k, buf, start, line, useHuffman);
    ghost var b := buf[..];
    var m: Option<nat> := None;
    if n.Some? {
      m := WriteValue(k, buf, start + n.value, line.value, useHuffman);
    }
    WriteBoth(a, b, buf[..], start, EncodeHead(k, line, useHuffman), EncodeValue(k, line.value, useHuffman), n, m);
    r := Both(n, m);
  }

  lemma {:induction false} EncodeLinesConcat(k: Codebook, a: seq<Line>, b: seq<Line>, useHuffman: bool)
    requires Usable(k)
    ensures EncodeLines(k, a + b, useHuffman) == EncodeLines(k, a, useHuffman) + EncodeLines(k, b, useHuffman)
    decreases |b|
  {
    hide EncodeLine;
    if b == [] {
      assert a + b == a;
    } else {
      var c := b[..|b| - 1];
      assert (a + b)[..|a + b| - 1] == a + c;
      EncodeLinesConcat(k, a, c, useHuffman);
    }
  }

  /** After `i` of the lines the buffer holds their code behind the two counters. */
  ghost predicate Progress(k: Codebook, before: bytes, now: bytes, prefix: bytes, lines: seq<Line>, i: nat,
                           useHuffman: bool, offset: nat)
    requires Usable(k) && i <= |lines|
  {
    WriteResult(before, now, 0, prefix + EncodeLines(k, lines[..i], useHuffman), Some(offset))
  }

  lemma LinesSplit(k: Codebook, prefix: bytes, lines: seq<Line>, i: nat, useHuffman: bool)
    requires Usable(k) && i < |lines|
    ensures prefix + EncodeLines(k, lines[..i + 1], useHuffman)
         == prefix + EncodeLines(k, lines[..i], useHuffman) + EncodeLine(k, lines[i], useHuffman)
    ensures prefix + EncodeLines(k, lines, useHuffman)
         == prefix + EncodeLines(k, lines[..i + 1], useHuffman) + EncodeLines(k, lines[i + 1..], useHuffman)
  {
    hide EncodeLine;
    assert lines[..i + 1][..i] == lines[..i];
    Regroup(prefix, EncodeLines(k, lines[..i], useHuffman), EncodeLine(k, lines[i], useHuffman));
    assert lines == lines[..i + 1] + lines[i + 1..];
    EncodeLinesConcat(k, lines[..i + 1], lines[i + 1..], useHuffman);
    Regroup(prefix, EncodeLines(k, lines[..i + 1], useHuffman), EncodeLines(k, lines[i + 1..], useHuffman));
  }

  lemma Regroup(a: bytes, b: bytes, c: bytes)
    ensures a + (b + c) == a + b + c
  {
  }

  lemma ProgressStep(k: Codebook, before: bytes, now: bytes, next: bytes, prefix: bytes, lines: seq<Line>, i: nat,
                     useHuffman: bool, offset: nat, r: Option<nat>)
    requires Usable(k) && i < |lines| && Progress(k, before, now, prefix, lines, i, useHuffman, offset)
    requires WriteResult(now, next, offset, EncodeLine(k, lines[i], useHuffman), r)
    ensures r.Some? ==> Progress(k, before, next, prefix, lines, i + 1, useHuffman, offset + r.value)
    ensures r.None? ==> WriteResult(before, next, 0, prefix + EncodeLines(k, lines, useHuffman), None)
  {
    hide EncodeLine, EncodeLines, WriteResult;
    var sofar, line := prefix + EncodeLines(k, lines[..i], useHuffman), EncodeLine(k, lines[i], useHuffman);
    OffsetOf(before, now, sofar, offset);
    WriteBoth(before, now, next, 0, sofar, line, Some(offset), r);
    LinesSplit(k, prefix, lines, i, useHuffman);
    if r.None? {
      WriteMore(before, next, 0, sofar + line, EncodeLines(k, lines[i + 1..], useHuffman));
    }
  }

  lemma OffsetOf(before: bytes, now: bytes, code: bytes, offset: nat)
    requires WriteResult(before, now, 0, code, Some(offset))
    ensures |now| == |before| && 0 + offset == offset
  {
  }

  /** Writes the `i`-th line behind the ones before it. */
  method WriteNext(k: Codebook, buf: array<byte>, ghost before: bytes, ghost prefix: bytes, ghost lines: seq<Line>,
                   ghost i: nat,
                   line: Line, useHuffman: bool, offset: nat) returns (r: Option<nat>)
    requires Usable(k) && i < |lines| && line == lines[i] && offset <= buf.Length && IsEmitted(line)
    requires Progress(k, before, buf[..], prefix, lines, i, useHuffman, offset)
    modifies buf
    ensures r.Some? ==> r.value <= buf.Length && Progress(k, before, buf[..], prefix, lines, i + 1, useHuffman, r.value)
    ensures r.None? ==> WriteResult(before, buf[..], 0, prefix + EncodeLines(k, lines, useHuffman), None)
  {
    hide EncodeLine, EncodeLines, WriteResult, Progress;
    ghost var now := buf[..];
    var n := WriteLine(k, buf, offset, line, useHuffman);
    ProgressStep(k, before, now, buf[..], prefix, lines, i, useHuffman, offset, n);
    WriteFits(now, buf[..], offset, EncodeLine(k, line, useHuffman), n);
    return if n.Some? then Some(offset + n.value) else None;
  }

  lemma EndLines(k: Codebook, before: bytes, now: bytes, prefix: bytes, lines: seq<Line>, useHuffman: bool, offset: nat)
    requires Usable(k) && Progress(k, before, now, prefix, lines, |lines|, useHuffman, offset)
    ensures WriteResult(before, now, 0, prefix + EncodeLines(k, lines, useHuffman), Some(offset))
  {
    assert lines[..|lines|] == lines;
  }

  class DynamicEncoder {
    const book: Codebook
    const table: T.DynamicTable
    var useHuffman: bool
    var maxTableCapacity: nat
    var knownReceivedCount: nat
    var lastRequiredInsertCount: nat
    var peerMaxBlockedStreams: nat
    var unackedSectionRics: Sections

    ghost predicate Valid()
      reads this, table
    {
      Usable(book) && table.Valid()
    }

    ghost function Value(): Encoder
      requires Valid()
      reads this, table
    {
      Encoder(table.Value(), useHuffman, maxTableCapacity, knownReceivedCount, peerMaxBlockedStreams,
              unackedSectionRics)
    }

    constructor (book: Codebook)
      requires Usable(book)
      ensures Valid() && this.book == book && fresh(table)
      ensures Value() == Encoder(EMPTY, true, 0, 0, 0, map[]) && lastRequiredInsertCount == 0
    {
      this.book := book;
      table := new T.DynamicTable();
      useHuffman, maxTableCapacity, knownReceivedCount := true, 0, 0;
      lastRequiredInsertCount, peerMaxBlockedStreams, unackedSectionRics := 0, 0, map[];
    }

    /** A capacity above the peer's limit is refused and changes nothing. */
    method SetTableCapacity(capacity: nat) returns (r: Result<()>)
      requires Valid()
      modifies table
      ensures Valid()
      ensures r == if capacity > maxTableCapacity then Err(CapacityExceeded) else Ok(())
      ensures Value() == if r.Ok? then old(Value()).(table := SetCapacity(old(table.Value()), capacity))
          else old(Value())
    {
      if capacity > maxTableCapacity {
        return Err(CapacityExceeded);
      }
      table.SetCapacity(capacity);
      return Ok(());
    }

    /** Recomputes the limit from every outstanding count. */
    method UpdateEvictionLimit()
      requires Valid()
      modifies table
      ensures Valid() && Value() == UpdateLimit(old(Value()))
    {
      var maxRic := 0;
      var rest := unackedSectionRics;
      while rest != map[]
        invariant table.Valid() && table.Value() == old(table.Value())
        invariant forall s :: s in rest ==> s in unackedSectionRics && rest[s] == unackedSectionRics[s]
        invariant forall s, i :: s in unackedSectionRics && s !in rest && 0 <= i < |unackedSectionRics[s]| ==>
                    unackedSectionRics[s][i] <= maxRic
        invariant maxRic == 0 || Outstanding(unackedSectionRics, maxRic)
        decreases |rest|
      {
        var s :| s in rest;
        maxRic := MaxOf(rest[s], maxRic);
        WithoutCount(rest, s);
        rest := Without(rest, s);
      }
      LimitUnique(unackedSectionRics, maxRic, Limit(unackedSectionRics));
      table.SetEvictionLimit(maxRic);
    }

    method Acknowledge(count: nat)
      requires Valid()
      modifies this`knownReceivedCount, table
      ensures Valid() && Value() == EncoderModel.Acknowledge(old(Value()), count)
    {
      if count > knownReceivedCount {
        knownReceivedCount := count;
      }
      UpdateEvictionLimit();
    }

    method TrackSection(stream: nat, ric: nat)
      requires Valid()
      modifies this`unackedSectionRics, table
      ensures Valid() && Value() == EncoderModel.TrackSection(old(Value()), stream, ric)
    {
      if ric > 0 {
        var rics := Of(unackedSectionRics, stream);
        unackedSectionRics := unackedSectionRics[stream := rics + [ric]];
        UpdateEvictionLimit();
      }
    }

    method AckSection(stream: nat) returns (r: Result<()>)
      requires Valid()
      modifies this`unackedSectionRics, this`knownReceivedCount, table
      ensures Valid()
      ensures var spec := EncoderModel.AckSection(old(Value()), stream);
        && (spec.Ok? ==> r == Ok(()) && Value() == spec.value)
        && (spec.Err? ==> r == Err(spec.error) && Value() == old(Value()))
    {
      if stream !in unackedSectionRics || |unackedSectionRics[stream]| == 0 {
        return Err(DecodeFailed);
      }
      var ric, rest := unackedSectionRics[stream][0], unackedSectionRics[stream][1..];
      unackedSectionRics := if |rest| == 0 then Without(unackedSectionRics, stream)
          else unackedSectionRics[stream := rest];
      if ric > knownReceivedCount {
        knownReceivedCount := ric;
      }
      UpdateEvictionLimit();
      return Ok(());
    }

    method CancelStream(stream: nat)
      requires Valid()
      modifies this`unackedSectionRics, table
      ensures Valid() && Value() == EncoderModel.CancelStream(old(Value()), stream)
    {
      unackedSectionRics := Without(unackedSectionRics, stream);
      UpdateEvictionLimit();
    }

    /** `encode`: the section goes to the front of the buffer, or there is no room for it. The
        count is recorded either way, and nothing else of the encoder changes. */
    method Encode(buf: array<byte>, headers: seq<Header>, blockedStreams: nat) returns (r: Option<nat>)
      requires Valid()
      modifies this`lastRequiredInsertCount, buf
      ensures Valid() && Value() == old(Value())
      ensures lastRequiredInsertCount == SectionCountFor(Value(), headers, blockedStreams)
      ensures WriteResult(old(buf[..]), buf[..], 0, SectionFor(book, Value(), headers, blockedStreams), r)
    {
      hide WriteResult, StaticSection, DynamicSection;
      if |table.entries| == 0 || maxTableCapacity == 0 || blockedStreams >= peerMaxBlockedStreams {
        lastRequiredInsertCount := 0;
        r := EncodeStaticOnly(buf, headers);
      } else {
        r := EncodeWithDynamic(buf, headers);
      }
    }

    method EncodeStaticOnly(buf: array<byte>, headers: seq<Header>) returns (r: Option<nat>)
      requires Valid()
      modifies buf
      ensures WriteResult(old(buf[..]), buf[..], 0, StaticSection(book, headers, useHuffman), r)
    {
      hide WriteResult, EncodeLines, StaticLineFor, PrefixInteger.Encode, Pow2;
      SmallPowers();
      var prefix := WriteCounters(buf, 0);
      ghost var code := PrefixInteger.Encode(0, 8, 0) + [0];
      if prefix.None? {
        WriteMore(old(buf[..]), buf[..], 0, code, EncodeLines(book, StaticLinesFor(book, headers), useHuffman));
        return None;
      }
      r := WriteStaticLines(buf, old(buf[..]), code, headers, prefix.value);
    }

    method WriteStaticLines(buf: array<byte>, ghost before: bytes, ghost code: bytes, headers: seq<Header>, start: nat)
      returns (r: Option<nat>)
      requires Valid() && start <= buf.Length && WriteResult(before, buf[..], 0, code, Some(start))
      modifies buf
      ensures WriteResult(before, buf[..], 0, code + EncodeLines(book, StaticLinesFor(book, headers), useHuffman), r)
    {
      hide WriteResult, EncodeLines, StaticLineFor, Progress;
      ghost var lines := StaticLinesFor(book, headers);
      var offset: nat := start;
      StartLines(book, before, buf[..], code, lines, useHuffman, offset);
      for i := 0 to |headers|
        invariant Progress(book, before, buf[..], code, lines, i, useHuffman, offset)
        invariant offset <= buf.Length
      {
        var line := ChooseStaticLine(headers[i]);
        var next := WriteNext(book, buf, before, code, lines, i, line, useHuffman, offset);
        if next.None? {
          return None;
        }
        offset := next.value;
      }
      EndLines(book, before, buf[..], code, lines, useHuffman, offset);
      return Some(offset);
    }

    method WriteCounters(buf: array<byte>, encodedCount: nat) returns (r: Option<nat>)
      modifies buf
      ensures WriteResult(old(buf[..]), buf[..], 0, PrefixInteger.Encode(encodedCount, 8, 0) + [0], r)
      ensures r.Some? ==> r.value <= buf.Length
    {
      hide PrefixInteger.Encode;
      SmallPowers();
      ghost var a := buf[..];
      var n := EncodeLenAt(buf, 0, encodedCount, 8, 0);
      ghost var b := buf[..];
      var m: Option<nat> := None;
      if n.Some? {
        m := WriteOctet(buf, n.value, 0);
      }
      WriteBoth(a, b, buf[..], 0, PrefixInteger.Encode(encodedCount, 8, 0), [0], n, m);
      r := Both(n, m);
    }

    method ChooseStaticLine(h: Header) returns (line: Line)
      requires Valid()
      ensures line == StaticLineFor(book, h)
    {
      var m := Search(book.fixed, h.field);
      if m.exact.Some? {
        return IndexedStatic(m.exact.value);
      } else if m.name.Some? {
        return NameStatic(m.name.value, h.field.value, h.neverIndexed);
      }
      return LiteralName(h.field.name, h.field.value, h.neverIndexed);
    }

    method ChooseLine(h: Header, base: nat) returns (line: Line)
      requires Valid() && NeededBy(table.Value(), h.field) <= base
      ensures line == LineFor(book, table.Value(), h, base)
    {
      var dyn := table.FindEntry(h.field);
      var fix := Search(book.fixed, h.field);
      if dyn.exact.Some? {
        return IndexedDynamic(base - dyn.exact.value - 1);
      } else if fix.exact.Some? {
        return IndexedStatic(fix.exact.value);
      } else if dyn.name.Some? {
        return NameDynamic(base - dyn.name.value - 1, h.field.value, h.neverIndexed);
      } else if fix.name.Some? {
        return NameStatic(fix.name.value, h.field.value, h.neverIndexed);
      }
      return LiteralName(h.field.name, h.field.value, h.neverIndexed);
    }

    /** The first pass: the largest count any header needs. */
    method FindRequiredCount(headers: seq<Header>) returns (ric: nat)
      requires Valid()
      ensures ric == RequiredCount(table.Value(), headers)
    {
      ric := 0;
      for i := 0 to |headers|
        invariant ric == RequiredCount(table.Value(), headers[..i])
      {
        assert headers[..i + 1][..i] == headers[..i];
        var m := table.FindEntry(headers[i].field);
        if m.exact.Some? {
          if m.exact.value + 1 > ric {
            ric := m.exact.value + 1;
          }
        } else if m.name.Some? && m.name.value + 1 > ric {
          ric := m.name.value + 1;
        }
      }
      assert headers[..|headers|] == headers;
    }

    method EncodeWithDynamic(buf: array<byte>, headers: seq<Header>) returns (r: Option<nat>)
      requires Valid()
      modifies this`lastRequiredInsertCount, buf
      ensures lastRequiredInsertCount == RequiredCount(table.Value(), headers)
      ensures WriteResult(old(buf[..]), buf[..], 0,
                          DynamicSection(book, table.Value(), headers, maxTableCapacity, useHuffman), r)
    {
      hide WriteResult, EncodeLines, LineFor, RequiredCount;
      var ric := FindRequiredCount(headers);
      lastRequiredInsertCount := ric;
      RequiredCountCovers(table.Value(), headers);
      ghost var lines := LinesFor(book, table.Value(), headers, ric);
      var encodedCount := EncodeCount(ric, maxTableCapacity);
      ghost var code := PrefixInteger.Encode(encodedCount, 8, 0) + [0];
      var prefix := WriteCounters(buf, encodedCount);
      if prefix.None? {
        WriteMore(old(buf[..]), buf[..], 0, code, EncodeLines(book, lines, useHuffman));
        return None;
      }
      r := WriteDynamicLines(buf, old(buf[..]), code, headers, ric, prefix.value);
    }

    method WriteDynamicLines(buf: array<byte>, ghost before: bytes, ghost code: bytes, headers: seq<Header>, ric: nat,
                             start: nat)
      returns (r: Option<nat>)
      requires Valid() && start <= buf.Length && WriteResult(before, buf[..], 0, code, Some(start))
      requires forall h :: h in headers ==> NeededBy(table.Value(), h.field) <= ric
      modifies buf
      ensures WriteResult(before, buf[..], 0,
                          code + EncodeLines(book, LinesFor(book, table.Value(), headers, ric), useHuffman), r)
    {
      hide WriteResult, EncodeLines, LineFor, NeededBy, Progress;
      ghost var lines := LinesFor(book, table.Value(), headers, ric);
      var offset: nat := start;
      StartLines(book, before, buf[..], code, lines, useHuffman, offset);
      for i := 0 to |headers|
        invariant Progress(book, before, buf[..], code, lines, i, useHuffman, offset)
        invariant offset <= buf.Length
      {
        assert headers[i] in headers;
        var line := ChooseLine(headers[i], ric);
        var next := WriteNext(book, buf, before, code, lines, i, line, useHuffman, offset);
        if next.None? {
          return None;
        }
        offset := next.value;
      }
      EndLines(book, before, buf[..], code, lines, useHuffman, offset);
      return Some(offset);
    }
  }

  lemma StartLines(k: Codebook, before: bytes, now: bytes, code: bytes, lines: seq<Line>, useHuffman: bool, offset: nat)
    requires Usable(k) && WriteResult(before, now, 0, code, Some(offset))
    ensures Progress(k, before, now, code, lines, 0, useHuffman, offset)
  {
    assert lines[..0] == [];
    assert code + [] == code;
  }
}
