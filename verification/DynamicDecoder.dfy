/** The mutable decoder of `qpack/decoder.rs`, proved against the value model. */
module DynamicDecoder {
  import opened Bytes
  import opened Fields
  import opened FieldLines
  import opened FieldSection
  import opened InsertCount
  import opened PrefixInteger
  import opened StringLiteral
  import opened TableModel
  import T = DynamicTable

  /** The value string of a line whose name has been read. */
  method ReadValue(k: Codebook, data: bytes, name: bytes, n: nat) returns (r: Result<(Field, nat)>)
    requires Usable(k) && n <= |data|
    ensures r == WithValue(k, data, name, n)
  {
    hide DecodeString;
    var value := ReadString(k.huffman, data[n..], 7);
    return if value.Err? then Err(value.error) else Ok((Field(name, value.value.0), n + value.value.1));
  }

  class DynamicDecoder {
    const book: Codebook
    const table: T.DynamicTable
    var maxFieldSectionSize: nat
    var maxTableCapacity: nat
    var lastRequiredInsertCount: nat

    ghost predicate Valid()
      reads table
    {
      Usable(book) && table.Valid()
    }

    constructor (book: Codebook)
      requires Usable(book)
      ensures Valid() && this.book == book && fresh(table) && table.Value() == EMPTY
      ensures maxFieldSectionSize == 16 * 1024 && maxTableCapacity == 0 && lastRequiredInsertCount == 0
    {
      this.book := book;
      table := new T.DynamicTable();
      maxFieldSectionSize, maxTableCapacity, lastRequiredInsertCount := 16 * 1024, 0, 0;
    }

    /** A dynamic reference: range check first, then the lookup. */
    method ResolveDynamic(index: nat, base: nat, ric: nat) returns (r: Result<Field>)
      requires Valid()
      ensures r == DynamicRef(table.Value(), index, base, ric)
    {
      if index < base {
        var absolute := base - index - 1;
        if absolute >= ric {
          return Err(DecodeFailed);
        }
      }
      var f := table.GetByRelativeIndexRepr(index, base);
      return if f.None? then Err(InvalidIndex(index)) else Ok(f.value);
    }

    method ResolvePostBase(index: nat, base: nat, ric: nat) returns (r: Result<Field>)
      requires Valid()
      ensures r == PostBaseRef(table.Value(), index, base, ric)
    {
      if base + index >= ric {
        return Err(DecodeFailed);
      }
      var f := table.GetByPostBaseIndex(index, base);
      return if f.None? then Err(InvalidIndex(index)) else Ok(f.value);
    }

    method ResolveStatic(index: nat) returns (r: Result<Field>)
      requires Valid()
      ensures r == StaticRef(book, index)
    {
      if index >= STATIC_TABLE_LEN {
        return Err(InvalidIndex(index));
      }
      return Ok(book.fixed[index]);
    }

    method ReadIndexed(data: bytes, base: nat, ric: nat) returns (r: Result<(Field, nat)>)
      requires Valid() && data != []
      ensures r == DecodeIndexed(book, table.Value(), data, base, ric)
    {
      hide PrefixInteger.Decode, StaticRef, DynamicRef;
      var isStatic := data[0] / 64 % 2 == 1;
      var index := DecodeLoop(data, 6);
      if index.Err? {
        return Err(index.error);
      }
      var f;
      if isStatic {
        f := ResolveStatic(index.value.0);
      } else {
        f := ResolveDynamic(index.value.0, base, ric);
      }
      return if f.Err? then Err(f.error) else Ok((f.value, index.value.1));
    }

    method ReadIndexedPostBase(data: bytes, base: nat, ric: nat) returns (r: Result<(Field, nat)>)
      requires Valid() && data != []
      ensures r == DecodeIndexedPostBase(table.Value(), data, base, ric)
    {
      hide PrefixInteger.Decode, PostBaseRef;
      var index := DecodeLoop(data, 4);
      if index.Err? {
        return Err(index.error);
      }
      var f := ResolvePostBase(index.value.0, base, ric);
      return if f.Err? then Err(f.error) else Ok((f.value, index.value.1));
    }

    method ReadNameRef(data: bytes, base: nat, ric: nat) returns (r: Result<(Field, nat)>)
      requires Valid() && data != []
      ensures r == DecodeNameRef(book, table.Value(), data, base, ric)
    {
      hide PrefixInteger.Decode, StaticRef, DynamicRef, WithValue;
      var isStatic := data[0] / 16 % 2 == 1;
      var index := DecodeLoop(data, 4);
      if index.Err? {
        return Err(index.error);
      }
      var f;
      if isStatic {
        f := ResolveStatic(index.value.0);
      } else {
        f := ResolveDynamic(index.value.0, base, ric);
      }
      if f.Err? {
        return Err(f.error);
      }
      r := ReadValue(book, data, f.value.name, index.value.1);
    }

    method ReadNamePostBase(data: bytes, base: nat, ric: nat) returns (r: Result<(Field, nat)>)
      requires Valid() && data != []
      ensures r == DecodeNamePostBase(book, table.Value(), data, base, ric)
    {
      hide PrefixInteger.Decode, PostBaseRef, WithValue;
      var index := DecodeLoop(data, 3);
      if index.Err? {
        return Err(index.error);
      }
      var f := ResolvePostBase(index.value.0, base, ric);
      if f.Err? {
        return Err(f.error);
      }
      r := ReadValue(book, data, f.value.name, index.value.1);
    }

    method ReadLiteralName(data: bytes) returns (r: Result<(Field, nat)>)
      requires Valid() && data != []
      ensures r == DecodeLiteralName(book, data)
    {
      hide DecodeString, WithValue;
      var name := ReadString(book.huffman, data, 3);
      if name.Err? {
        return Err(name.error);
      }
      r := ReadValue(book, data, name.value.0, name.value.1);
    }

    method ReadLine(data: bytes, base: nat, ric: nat) returns (r: Result<(Field, nat)>)
      requires Valid()
      ensures r == DecodeLine(book, table.Value(), data, base, ric)
    {
      hide DecodeIndexed, DecodeNameRef, DecodeLiteralName, DecodeIndexedPostBase, DecodeNamePostBase;
      if data == [] {
        return Err(BufferTooShort);
      }
      var first := data[0];
      if first / 128 % 2 == 1 {
        r := ReadIndexed(data, base, ric);
      } else if first / 64 % 2 == 1 {
        r := ReadNameRef(data, base, ric);
      } else if first / 32 % 2 == 1 {
        r := ReadLiteralName(data);
      } else if first / 16 % 2 == 1 {
        r := ReadIndexedPostBase(data, base, ric);
      } else {
        r := ReadNamePostBase(data, base, ric);
      }
    }

    /** The header loop, with its running size. */
    method ReadLines(data: bytes, start: nat, base: nat, ric: nat) returns (r: Result<seq<Field>>)
      requires Valid() && start <= |data|
      ensures r == DecodeLines(book, table.Value(), data[start..], base, ric, 0, maxFieldSectionSize)
    {
      hide DecodeLine;
      var offset: nat, headers: seq<Field>, totalSize: nat := start, [], 0;
      ghost var t, whole := table.Value(),
          DecodeLines(book, table.Value(), data[start..], base, ric, 0, maxFieldSectionSize);
      BeforeNothing(whole);
      while offset < |data|
        invariant start <= offset <= |data|
        invariant whole == Before(headers,
                                  DecodeLines(book, t, data[offset..], base, ric, totalSize, maxFieldSectionSize))
        decreases |data| - offset
      {
        var line := ReadLine(data[offset..], base, ric);
        if line.Err? {
          return Err(line.error);
        }
        var (f, n) := line.value;
        if totalSize + FieldSize(f) > maxFieldSectionSize {
          return Err(DecodeFailed);
        }
        assert data[offset..][n..] == data[offset + n..];
        BeforeBefore(headers, f, DecodeLines(book, t, data[offset + n..], base, ric, totalSize + FieldSize(f),
                                             maxFieldSectionSize));
        totalSize := totalSize + FieldSize(f);
        headers := headers + [f];
        offset := offset + n;
      }
      assert headers + [] == headers;
      return Ok(headers);
    }

    method ReadBase(data: bytes, ric: nat) returns (r: Result<(nat, nat)>)
      ensures r == DecodeBase(data, ric)
    {
      hide PrefixInteger.Decode;
      if data == [] {
        return Err(BufferTooShort);
      }
      var sign := data[0] / 128 % 2 == 1;
      var delta := DecodeLoop(data, 7);
      if delta.Err? {
        return Err(delta.error);
      }
      if sign {
        if ric <= delta.value.0 {
          return Err(DecodeFailed);
        }
        return Ok((ric - delta.value.0 - 1, delta.value.1));
      }
      return Ok((ric + delta.value.0, delta.value.1));
    }

    /** `decode`. The count is recorded as soon as it is restored, blocked or not. */
    method Decode(data: bytes) returns (r: Outcome)
      requires Valid()
      modifies this`lastRequiredInsertCount
      ensures r == DecodeSection(book, table.Value(), data, maxTableCapacity, maxFieldSectionSize)
      ensures var count := CountOf(data, |table.Value().log|, maxTableCapacity);
        lastRequiredInsertCount == if count.Ok? then count.value else old(lastRequiredInsertCount)
    {
      hide PrefixInteger.Decode, DecodeCount, DecodeBase, DecodeLines;
      if |data| < 2 {
        return Failed(BufferTooShort);
      }
      var enc := DecodeLoop(data, 8);
      if enc.Err? {
        return Failed(enc.error);
      }
      var count := DecodeCount(enc.value.0, table.insertCount, maxTableCapacity);
      if count.Err? {
        return Failed(count.error);
      }
      var ric := count.value;
      lastRequiredInsertCount := ric;
      if ric > 0 && table.insertCount < ric {
        return Blocked;
      }
      r := ReadBody(data[enc.value.1..], ric);
    }

    method ReadBody(data: bytes, ric: nat) returns (r: Outcome)
      requires Valid()
      ensures r == match DecodeBody(book, table.Value(), data, ric, maxFieldSectionSize)
        case Err(e) => Failed(e)
        case Ok(fields) => Decoded(fields)
    {
      hide DecodeLines;
      var base := ReadBase(data, ric);
      if base.Err? {
        return Failed(base.error);
      }
      var lines := ReadLines(data, base.value.1, base.value.0, ric);
      return if lines.Err? then Failed(lines.error) else Decoded(lines.value);
    }
  }

  function Before(done: seq<Field>, r: Result<seq<Field>>): Result<seq<Field>> {
    if r.Ok? then Ok(done + r.value) else r
  }

  lemma BeforeNothing(r: Result<seq<Field>>)
    ensures Before([], r) == r
  {
    assert r.Ok? ==> [] + r.value == r.value;
  }

  lemma BeforeBefore(done: seq<Field>, f: Field, r: Result<seq<Field>>)
    ensures Before(done, Before([f], r)) == Before(done + [f], r)
  {
    if r.Ok? {
      assert done + ([f] + r.value) == done + [f] + r.value;
    }
  }
}
