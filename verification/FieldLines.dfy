/** Field line representations (sections 4.5.2 to 4.5.6 of RFC 9204). */
module FieldLines {
  import opened Bytes
  import opened Fields
  import opened HuffmanCode
  import opened PrefixInteger
  import opened StringLiteral
  import opened TableModel

  const STATIC_TABLE_LEN: nat := 99

  /** The two constant tables: the static table and the Huffman code. */
  datatype Codebook = Codebook(fixed: seq<Field>, huffman: seq<HuffmanSym>)

  ghost predicate Usable(k: Codebook) {
    |k.fixed| == STATIC_TABLE_LEN && GoodTable(k.huffman)
  }

  /** The representations of a field line. The encoder emits the first five: its dynamic
      references are always relative to the base. */
  datatype Line =
    | IndexedStatic(index: nat)
    | IndexedDynamic(relative: nat)
    | NameStatic(index: nat, value: bytes, never: bool)
    | NameDynamic(relative: nat, value: bytes, never: bool)
    | LiteralName(name: bytes, value: bytes, never: bool)
    | IndexedPostBase(beyond: nat)
    | NamePostBase(beyond: nat, value: bytes, never: bool)

  predicate IsEmitted(line: Line) {
    !line.IndexedPostBase? && !line.NamePostBase?
  }

  predicate IsIndexed(line: Line) {
    line.IndexedStatic? || line.IndexedDynamic? || line.IndexedPostBase?
  }

  lemma SmallPowers()
    ensures Pow2(3) == 8 && Pow2(4) == 16 && Pow2(5) == 32 && Pow2(6) == 64 && Pow2(7) == 128 && Pow2(8) == 256
  {
  }

  /** The octets in front of a value string: the reference, or the literal name. */
  function EncodeHead(k: Codebook, line: Line, useHuffman: bool): (r: bytes)
    requires Usable(k)
    ensures |r| >= 1
  {
    SmallPowers();
    match line
    case IndexedStatic(i) => Encode(i, 6, 0xc0)
    case IndexedDynamic(i) => Encode(i, 6, 0x80)
    case NameStatic(i, _, never) => Encode(i, 4, if never then 0x70 else 0x50)
    case NameDynamic(i, _, never) => Encode(i, 4, if never then 0x60 else 0x40)
    case LiteralName(name, _, never) => EncodeString(k.huffman, name, 3, if never then 0x30 else 0x20, useHuffman)
    case IndexedPostBase(i) => Encode(i, 4, 0x10)
    case NamePostBase(i, _, never) => Encode(i, 3, if never then 0x08 else 0)
  }

  /** A value string: seven bits of length under the H bit. */
  function EncodeValue(k: Codebook, value: bytes, useHuffman: bool): bytes
    requires Usable(k)
  {
    SmallPowers();
    EncodeString(k.huffman, value, 7, 0, useHuffman)
  }

  function EncodeLine(k: Codebook, line: Line, useHuffman: bool): (r: bytes)
    requires Usable(k)
    ensures |r| >= 1
  {
    if IsIndexed(line) then EncodeHead(k, line, useHuffman)
    else EncodeHead(k, line, useHuffman) + EncodeValue(k, line.value, useHuffman)
  }

  // ---- Reading ------------------------------------------------------------

  function StaticRef(k: Codebook, index: nat): Result<Field>
    requires |k.fixed| == STATIC_TABLE_LEN
  {
    if index >= STATIC_TABLE_LEN then Err(InvalidIndex(index)) else Ok(k.fixed[index])
  }

  /** A reference must lie below the Required Insert Count and be live. */
  function DynamicRef(t: Table, index: nat, base: nat, ric: nat): Result<Field> {
    if index < base && base - index - 1 >= ric then Err(DecodeFailed)
    else
      var f := ByBaseRelative(t, index, base);
      if f.None? then Err(InvalidIndex(index)) else Ok(f.value)
  }

  function PostBaseRef(t: Table, index: nat, base: nat, ric: nat): Result<Field> {
    if base + index >= ric then Err(DecodeFailed)
    else
      var f := ByPostBase(t, index, base);
      if f.None? then Err(InvalidIndex(index)) else Ok(f.value)
  }

  function DecodeIndexed(k: Codebook, t: Table, data: bytes, base: nat, ric: nat): (r: Result<(Field, nat)>)
    requires Usable(k) && data != []
    ensures r.Ok? ==> 1 <= r.value.1 <= |data|
  {
    var (index, n) :- Decode(data, 6);
    var f :- if data[0] / 64 % 2 == 1 then StaticRef(k, index) else DynamicRef(t, index, base, ric);
    Ok((f, n))
  }

  function DecodeIndexedPostBase(t: Table, data: bytes, base: nat, ric: nat): (r: Result<(Field, nat)>)
    requires data != []
    ensures r.Ok? ==> 1 <= r.value.1 <= |data|
  {
    var (index, n) :- Decode(data, 4);
    var f :- PostBaseRef(t, index, base, ric);
    Ok((f, n))
  }

  /** The value string after a name that took `n` octets. */
  ghost function WithValue(k: Codebook, data: bytes, name: bytes, n: nat): (r: Result<(Field, nat)>)
    requires Usable(k) && n <= |data|
    ensures r.Ok? ==> n <= r.value.1 <= |data|
  {
    var (value, m) :- DecodeString(k.huffman, data[n..], 7);
    Ok((Field(name, value), n + m))
  }

  ghost function DecodeNameRef(k: Codebook, t: Table, data: bytes, base: nat, ric: nat): (r: Result<(Field, nat)>)
    requires Usable(k) && data != []
    ensures r.Ok? ==> 1 <= r.value.1 <= |data|
  {
    var (index, n) :- Decode(data, 4);
    var f :- if data[0] / 16 % 2 == 1 then StaticRef(k, index) else DynamicRef(t, index, base, ric);
    WithValue(k, data, f.name, n)
  }

  ghost function DecodeNamePostBase(k: Codebook, t: Table, data: bytes, base: nat, ric: nat): (r: Result<(Field, nat)>)
    requires Usable(k) && data != []
    ensures r.Ok? ==> 1 <= r.value.1 <= |data|
  {
    var (index, n) :- Decode(data, 3);
    var f :- PostBaseRef(t, index, base, ric);
    WithValue(k, data, f.name, n)
  }

  ghost function DecodeLiteralName(k: Codebook, data: bytes): (r: Result<(Field, nat)>)
    requires Usable(k) && data != []
    ensures r.Ok? ==> 1 <= r.value.1 <= |data|
  {
    var (name, n) :- DecodeString(k.huffman, data, 3);
    WithValue(k, data, name, n)
  }

  /** The dispatch on the leading bits of the first octet. */
  ghost function DecodeLine(k: Codebook, t: Table, data: bytes, base: nat, ric: nat): (r: Result<(Field, nat)>)
    requires Usable(k)
    ensures r.Ok? ==> 1 <= r.value.1 <= |data|
  {
    if data == [] then Err(BufferTooShort)
    else if data[0] / 128 % 2 == 1 then DecodeIndexed(k, t, data, base, ric)
    else if data[0] / 64 % 2 == 1 then DecodeNameRef(k, t, data, base, ric)
    else if data[0] / 32 % 2 == 1 then DecodeLiteralName(k, data)
    else if data[0] / 16 % 2 == 1 then DecodeIndexedPostBase(t, data, base, ric)
    else DecodeNamePostBase(k, t, data, base, ric)
  }

  // ---- Round trip ---------------------------------------------------------

  /** The field a line denotes at a reader with table `t`. */
  function LineField(k: Codebook, t: Table, line: Line, base: nat, ric: nat): Result<Field>
    requires |k.fixed| == STATIC_TABLE_LEN
  {
    match line
    case IndexedStatic(i) => StaticRef(k, i)
    case IndexedDynamic(i) => DynamicRef(t, i, base, ric)
    case NameStatic(i, value, _) => (var f :- StaticRef(k, i); Ok(Field(f.name, value)))
    case NameDynamic(i, value, _) => (var f :- DynamicRef(t, i, base, ric); Ok(Field(f.name, value)))
    case LiteralName(name, value, _) => Ok(Field(name, value))
    case IndexedPostBase(i) => PostBaseRef(t, i, base, ric)
    case NamePostBase(i, value, _) => (var f :- PostBaseRef(t, i, base, ric); Ok(Field(f.name, value)))
  }

  /** Every number in the line is one that a reader accepts. */
  predicate Sendable(line: Line) {
    match line
    case IndexedStatic(i) => i <= MAX_VALUE
    case IndexedDynamic(i) => i <= MAX_VALUE
    case NameStatic(i, value, _) => i <= MAX_VALUE && |value| <= MAX_VALUE
    case NameDynamic(i, value, _) => i <= MAX_VALUE && |value| <= MAX_VALUE
    case LiteralName(name, value, _) => |name| <= MAX_VALUE && |value| <= MAX_VALUE
    case IndexedPostBase(i) => i <= MAX_VALUE
    case NamePostBase(i, value, _) => i <= MAX_VALUE && |value| <= MAX_VALUE
  }

  lemma ValueFollows(k: Codebook, head: bytes, name: bytes, value: bytes, useHuffman: bool, rest: bytes)
    requires Usable(k) && |value| <= MAX_VALUE
    ensures var code := head + EncodeValue(k, value, useHuffman);
      WithValue(k, code + rest, name, |head|) == Ok((Field(name, value), |code|))
  {
    hide DecodeString, EncodeString, Pow2;
    SmallPowers();
    var tail := EncodeValue(k, value, useHuffman);
    assert (head + tail + rest)[|head|..] == tail + rest;
    StringRoundTrip(k.huffman, value, 7, 0, useHuffman, rest);
  }

  lemma IndexedRoundTrip(k: Codebook, t: Table, line: Line, base: nat, ric: nat, useHuffman: bool, rest: bytes)
    requires Usable(k) && (line.IndexedStatic? || line.IndexedDynamic?) && Sendable(line)
    ensures var code := EncodeHead(k, line, useHuffman);
      DecodeLine(k, t, code + rest, base, ric)
      == match LineField(k, t, line, base, ric) case Ok(f) => Ok((f, |code|)) case Err(e) => Err(e)
  {
    hide Decode, Encode, Pow2, StaticRef, DynamicRef;
    SmallPowers();
    var index, flag := if line.IndexedStatic? then line.index else line.relative, if line.IndexedStatic? then 0xc0
        else 0x80;
    RoundTrip(index, 6, flag, rest);
    var data := EncodeHead(k, line, useHuffman) + rest;
    assert data[0] == Encode(index, 6, flag)[0];
    assert data[0] as nat / 64 == flag / 64;
  }

  lemma NameRefRoundTrip(k: Codebook, t: Table, line: Line, base: nat, ric: nat, useHuffman: bool, rest: bytes)
    requires Usable(k) && (line.NameStatic? || line.NameDynamic?) && Sendable(line)
    ensures var code := EncodeLine(k, line, useHuffman);
      DecodeLine(k, t, code + rest, base, ric)
      == match LineField(k, t, line, base, ric) case Ok(f) => Ok((f, |code|)) case Err(e) => Err(e)
  {
    hide Decode, Encode, Pow2, StaticRef, DynamicRef, WithValue, EncodeValue;
    SmallPowers();
    var index := if line.NameStatic? then line.index else line.relative;
    var flag := if line.NameStatic? then if line.never then 0x70 else 0x50 else if line.never then 0x60 else 0x40;
    var head, tail := Encode(index, 4, flag), EncodeValue(k, line.value, useHuffman);
    RoundTrip(index, 4, flag, tail + rest);
    var data := head + tail + rest;
    assert data == head + (tail + rest);
    assert data[0] == head[0] && data[0] as nat / 16 == flag / 16;
    var f := if line.NameStatic? then StaticRef(k, index) else DynamicRef(t, index, base, ric);
    if f.Ok? {
      ValueFollows(k, head, f.value.name, line.value, useHuffman, rest);
    }
  }

  lemma LiteralNameRoundTrip(k: Codebook, t: Table, line: Line, base: nat, ric: nat, useHuffman: bool, rest: bytes)
    requires Usable(k) && line.LiteralName? && Sendable(line)
    ensures var code := EncodeLine(k, line, useHuffman);
      DecodeLine(k, t, code + rest, base, ric) == Ok((Field(line.name, line.value), |code|))
  {
    hide DecodeString, EncodeString, Pow2, WithValue, EncodeValue;
    SmallPowers();
    var flag := if line.never then 0x30 else 0x20;
    var head, tail := EncodeString(k.huffman, line.name, 3, flag, useHuffman), EncodeValue(k, line.value, useHuffman);
    StringRoundTrip(k.huffman, line.name, 3, flag, useHuffman, tail + rest);
    var data := head + tail + rest;
    assert data == head + (tail + rest);
    assert data[0] == head[0] && data[0] as nat / 16 == flag / 16;
    ValueFollows(k, head, line.name, line.value, useHuffman, rest);
  }

  lemma PostBaseRoundTrip(k: Codebook, t: Table, line: Line, base: nat, ric: nat, useHuffman: bool, rest: bytes)
    requires Usable(k) && !IsEmitted(line) && Sendable(line)
    ensures var code := EncodeLine(k, line, useHuffman);
      DecodeLine(k, t, code + rest, base, ric)
      == match LineField(k, t, line, base, ric) case Ok(f) => Ok((f, |code|)) case Err(e) => Err(e)
  {
    hide Decode, Encode, Pow2, PostBaseRef, WithValue, EncodeValue;
    SmallPowers();
    var bits, flag := if line.IndexedPostBase? then 4 else 3, if line.IndexedPostBase? then 0x10
        else if line.never then 8 else 0;
    var head := Encode(line.beyond, bits, flag);
    var tail := if line.IndexedPostBase? then [] else EncodeValue(k, line.value, useHuffman);
    var data := head + tail + rest;
    RoundTrip(line.beyond, bits, flag, tail + rest);
    assert data == head + (tail + rest) && head + [] == head;
    assert data[0] == head[0] && data[0] as nat / Pow2(bits) == flag / Pow2(bits);
    var f := PostBaseRef(t, line.beyond, base, ric);
    if line.NamePostBase? && f.Ok? {
      ValueFollows(k, head, f.value.name, line.value, useHuffman, rest);
    }
  }

  /** A reader makes of every line exactly what the line denotes at the reader's table,
      errors included, and consumes exactly the line. */
  lemma LineRoundTrip(k: Codebook, t: Table, line: Line, base: nat, ric: nat, useHuffman: bool, rest: bytes)
    requires Usable(k) && Sendable(line)
    ensures var code := EncodeLine(k, line, useHuffman);
      DecodeLine(k, t, code + rest, base, ric)
      == match LineField(k, t, line, base, ric) case Ok(f) => Ok((f, |code|)) case Err(e) => Err(e)
  {
    hide DecodeLine, EncodeHead, EncodeValue;
    match line {
      case IndexedStatic(_) => IndexedRoundTrip(k, t, line, base, ric, useHuffman, rest);
      case IndexedDynamic(_) => IndexedRoundTrip(k, t, line, base, ric, useHuffman, rest);
      case LiteralName(_, _, _) => LiteralNameRoundTrip(k, t, line, base, ric, useHuffman, rest);
      case IndexedPostBase(_) => PostBaseRoundTrip(k, t, line, base, ric, useHuffman, rest);
      case NamePostBase(_, _, _) => PostBaseRoundTrip(k, t, line, base, ric, useHuffman, rest);
      case _ => NameRefRoundTrip(k, t, line, base, ric, useHuffman, rest);
    }
  }

  // ---- Partial lines ----------------------------------------------------------------------

  lemma ValueStable(k: Codebook, data: bytes, name: bytes, n: nat, more: bytes)
    requires Usable(k) && n <= |data| && WithValue(k, data, name, n) != Err(BufferTooShort)
    ensures WithValue(k, data + more, name, n) == WithValue(k, data, name, n)
  {
    hide DecodeString;
    assert (data + more)[n..] == data[n..] + more;
    StringStable(k.huffman, data[n..], 7, more);
  }

  /** Once a line can be read, or is known to be wrong, more octets change nothing. */
  lemma LineStable(k: Codebook, t: Table, data: bytes, base: nat, ric: nat, more: bytes)
    requires Usable(k) && DecodeLine(k, t, data, base, ric) != Err(BufferTooShort)
    ensures DecodeLine(k, t, data + more, base, ric) == DecodeLine(k, t, data, base, ric)
  {
    hide Decode, DecodeString, Pow2, WithValue, StaticRef, DynamicRef, PostBaseRef;
    var whole := data + more;
    assert whole[0] == data[0];
    if data[0] / 128 % 2 == 1 {
      Stable(data, 6, more);
    } else if data[0] / 64 % 2 == 1 {
      Stable(data, 4, more);
      if Decode(data, 4).Ok? {
        var (index, n) := Decode(data, 4).value;
        var f := if data[0] / 16 % 2 == 1 then StaticRef(k, index) else DynamicRef(t, index, base, ric);
        if f.Ok? {
          ValueStable(k, data, f.value.name, n, more);
        }
      }
    } else if data[0] / 32 % 2 == 1 {
      StringStable(k.huffman, data, 3, more);
      if DecodeString(k.huffman, data, 3).Ok? {
        ValueStable(k, data, DecodeString(k.huffman, data, 3).value.0, DecodeString(k.huffman, data, 3).value.1, more);
      }
    } else if data[0] / 16 % 2 == 1 {
      Stable(data, 4, more);
    } else {
      Stable(data, 3, more);
      if Decode(data, 3).Ok? {
        var (index, n) := Decode(data, 3).value;
        var f := PostBaseRef(t, index, base, ric);
        if f.Ok? {
          ValueStable(k, data, f.value.name, n, more);
        }
      }
    }
  }

  /** A line that is cut off is never mistaken for a line. */
  lemma PartialLine(k: Codebook, t: Table, line: Line, base: nat, ric: nat, useHuffman: bool, part: bytes, more: bytes)
    requires Usable(k) && Sendable(line) && LineField(k, t, line, base, ric).Ok?
    requires more != [] && part + more == EncodeLine(k, line, useHuffman)
    ensures DecodeLine(k, t, part, base, ric) == Err(BufferTooShort)
  {
    hide DecodeLine, EncodeLine, LineField, Sendable;
    LineRoundTrip(k, t, line, base, ric, useHuffman, []);
    assert EncodeLine(k, line, useHuffman) + [] == EncodeLine(k, line, useHuffman);
    if DecodeLine(k, t, part, base, ric) != Err(BufferTooShort) {
      LineStable(k, t, part, base, ric, more);
    }
  }

  // ---- What a reference means ------------------------------------------------------------

  /** A relative index counts down from the base, a post-base index up from it; either names a
      live entry below the Required Insert Count, or is an error. */
  lemma ReferencesMean(t: Table, index: nat, base: nat, ric: nat)
    requires ric <= |t.log|
    ensures DynamicRef(t, index, base, ric).Ok? <==> index < base && t.dropped <= base - 1 - index < ric
    ensures DynamicRef(t, index, base, ric).Ok? ==> DynamicRef(t, index, base, ric).value == t.log[base - 1 - index]
    ensures PostBaseRef(t, index, base, ric).Ok? <==> t.dropped <= base + index < ric
    ensures PostBaseRef(t, index, base, ric).Ok? ==> PostBaseRef(t, index, base, ric).value == t.log[base + index]
  {
  }

  /** A static reference counts from 0. */
  lemma StaticMeans(k: Codebook, index: nat)
    requires |k.fixed| == STATIC_TABLE_LEN
    ensures StaticRef(k, index) == if index < |k.fixed| then Ok(k.fixed[index]) else Err(InvalidIndex(index))
  {
  }
}
