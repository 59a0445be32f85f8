/** String literals (section 4.1.1 of RFC 9204): a length behind an H flag, then the octets
    themselves or their Huffman coding, whichever is shorter. */
module StringLiteral {
  import opened Bytes
  import opened HuffmanCode
  import Huffman
  import HuffmanAccumulator
  import opened PrefixInteger

  type StringBits = n: nat | 1 <= n <= 7 witness 1

  /** The bits above a length prefix of `bits` bits, with the H bit right above it clear. */
  predicate IsStringFlag(flag: nat, bits: StringBits) {
    flag < 256 && flag % Pow2(bits + 1) == 0
  }

  function HFlag(flag: nat, bits: StringBits, h: bool): (r: nat)
    requires IsStringFlag(flag, bits)
    ensures IsFlag(r, bits)
    ensures r / Pow2(bits) % 2 == (if h then 1 else 0)
    ensures r / Pow2(bits + 1) == flag / Pow2(bits + 1)
  {
    FlagBits(flag, bits);
    DisjointOr(flag, if h then Pow2(bits) else 0, bits + 1)
  }

  lemma FlagBits(flag: nat, bits: StringBits)
    requires IsStringFlag(flag, bits)
    ensures IsFlag(flag, bits) && flag / Pow2(bits) % 2 == 0
    ensures IsFlag(flag + Pow2(bits), bits) && (flag + Pow2(bits)) / Pow2(bits) % 2 == 1
    ensures (flag + Pow2(bits)) / Pow2(bits + 1) == flag / Pow2(bits + 1)
  {
    var p := Pow2(bits);
    assert Pow2(bits + 1) == 2 * p;
    FlagFits(flag, p, bits + 1);
    FlagMultiple(flag, p, flag / (2 * p));
  }

  lemma FlagMultiple(flag: nat, p: nat, k: nat)
    requires p > 0 && flag == 2 * p * k
    ensures flag % p == 0 && flag / p == 2 * k
    ensures (flag + p) % p == 0 && (flag + p) / p == 2 * k + 1
  {
    assert flag == p * (2 * k) + 0;
    DivModUnique(p, 2 * k, 0);
    assert flag + p == p * (2 * k + 1) + 0;
    DivModUnique(p, 2 * k + 1, 0);
  }

  function Shorter(huff: seq<HuffmanSym>, s: bytes, useHuffman: bool): bool
    requires |huff| == EOS + 1
  {
    useHuffman && Huffman.EncodedLen(huff, s) < |s|
  }

  function Payload(huff: seq<HuffmanSym>, s: bytes, useHuffman: bool): bytes
    requires |huff| == EOS + 1
  {
    if Shorter(huff, s, useHuffman) then Huffman.Encode(huff, s) else s
  }

  function EncodeString(huff: seq<HuffmanSym>, s: bytes, bits: StringBits, flag: nat, useHuffman: bool): (r: bytes)
    requires |huff| == EOS + 1 && IsStringFlag(flag, bits)
    ensures |r| >= 1 && r[0] as nat / Pow2(bits + 1) == flag / Pow2(bits + 1)
  {
    var h := HFlag(flag, bits, Shorter(huff, s, useHuffman));
    var prefix := Encode(|Payload(huff, s, useHuffman)|, bits, h);
    HighBits(prefix[0] as nat, h, bits);
    prefix + Payload(huff, s, useHuffman)
  }

  lemma HighBits(x: nat, y: nat, bits: nat)
    requires x / Pow2(bits) == y / Pow2(bits)
    ensures x / Pow2(bits + 1) == y / Pow2(bits + 1)
  {
    DivTwice(x, Pow2(bits));
    DivTwice(y, Pow2(bits));
  }

  lemma DivTwice(x: nat, p: nat)
    requires p > 0
    ensures x / (2 * p) == x / p / 2
  {
    var q := x / p;
    assert x == p * q + x % p;
    assert p * q == 2 * p * (q / 2) + p * (q % 2);
    DivModUnique(2 * p, q / 2, p * (q % 2) + x % p);
  }

  ghost function DecodePayload(huff: seq<HuffmanSym>, payload: bytes, h: bool): Result<bytes>
    requires GoodTable(huff)
  {
    if h then Huffman.Decode(huff, payload) else Ok(payload)
  }

  /** Reads `len` octets, as they are or Huffman-coded. */
  ghost function DecodeWithLen(huff: seq<HuffmanSym>, data: bytes, len: nat, h: bool): (r: Result<(bytes, nat)>)
    requires GoodTable(huff)
    ensures r.Ok? ==> r.value.1 == len <= |data|
  {
    if |data| < len then Err(BufferTooShort)
    else
      var s :- DecodePayload(huff, data[..len], h);
      Ok((s, len))
  }

  ghost function DecodeString(huff: seq<HuffmanSym>, data: bytes, bits: StringBits): (r: Result<(bytes, nat)>)
    requires GoodTable(huff)
    ensures r.Ok? ==> 1 <= r.value.1 <= |data|
  {
    if data == [] then Err(BufferTooShort)
    else
      var (len, n) :- Decode(data, bits);
      var (s, k) :- DecodeWithLen(huff, data[n..], len, data[0] as nat / Pow2(bits) % 2 == 1);
      Ok((s, n + k))
  }

  lemma PayloadRoundTrip(huff: seq<HuffmanSym>, s: bytes, useHuffman: bool)
    requires GoodTable(huff)
    ensures DecodePayload(huff, Payload(huff, s, useHuffman), Shorter(huff, s, useHuffman)) == Ok(s)
    ensures |Payload(huff, s, useHuffman)| <= |s|
  {
    Huffman.DecodeEncoded(huff, s);
  }

  lemma ReadsPayload(huff: seq<HuffmanSym>, data: bytes, len: nat, n: nat, s: bytes, bits: StringBits)
    requires GoodTable(huff) && data != [] && n + len <= |data|
    requires Decode(data, bits) == Ok((len, n))
    requires DecodePayload(huff, data[n..][..len], data[0] as nat / Pow2(bits) % 2 == 1) == Ok(s)
    ensures DecodeString(huff, data, bits) == Ok((s, n + len))
  {
    hide PrefixInteger.Decode;
    hide DecodePayload;
  }

  /** A reader takes a length-prefixed payload off the front, whatever follows it. */
  lemma FramedPayload(huff: seq<HuffmanSym>, payload: bytes, s: bytes, bits: StringBits, flag: nat, rest: bytes)
    requires GoodTable(huff) && IsFlag(flag, bits) && |payload| <= MAX_VALUE
    requires DecodePayload(huff, payload, flag / Pow2(bits) % 2 == 1) == Ok(s)
    ensures DecodeString(huff, Encode(|payload|, bits, flag) + payload + rest, bits)
         == Ok((s, |Encode(|payload|, bits, flag) + payload|))
  {
    hide Decode, DecodePayload, Pow2, PrefixInteger.Encode, DecodeString;
    var prefix := Encode(|payload|, bits, flag);
    var data := prefix + payload + rest;
    FramedParts(prefix, payload, rest);
    RoundTrip(|payload|, bits, flag, payload + rest);
    ReadsPayload(huff, data, |payload|, |prefix|, s, bits);
  }

  lemma FramedParts(a: bytes, b: bytes, c: bytes)
    requires a != []
    ensures a + b + c == a + (b + c)
    ensures (a + b + c)[0] == a[0]
    ensures (a + b + c)[|a|..][..|b|] == b
  {
  }

  /** Every string whose length is a 62-bit number survives, with or without Huffman. */
  lemma StringRoundTrip(huff: seq<HuffmanSym>, s: bytes, bits: StringBits, flag: nat, useHuffman: bool, rest: bytes)
    requires GoodTable(huff) && IsStringFlag(flag, bits) && |s| <= MAX_VALUE
    ensures DecodeString(huff, EncodeString(huff, s, bits, flag, useHuffman) + rest, bits)
         == Ok((s, |EncodeString(huff, s, bits, flag, useHuffman)|))
  {
    PayloadRoundTrip(huff, s, useHuffman);
    FramedPayload(huff, Payload(huff, s, useHuffman), s, bits, HFlag(flag, bits, Shorter(huff, s, useHuffman)), rest);
  }

  lemma StringStable(huff: seq<HuffmanSym>, data: bytes, bits: StringBits, more: bytes)
    requires GoodTable(huff) && DecodeString(huff, data, bits) != Err(BufferTooShort)
    ensures DecodeString(huff, data + more, bits) == DecodeString(huff, data, bits)
  {
    hide PrefixInteger.Decode, DecodePayload, Pow2;
    Stable(data, bits, more);
    var head := Decode(data, bits);
    if head.Ok? {
      var (len, n) := head.value;
      assert (data + more)[n..] == data[n..] + more;
      assert (data[n..] + more)[..len] == data[n..][..len];
    }
  }

  // ---- The procedures of the source ---------------------------------------

  /** `encode_string_with_prefix` of the encoder stream, which appends. */
  method EncodeStringToVec(huff: seq<HuffmanSym>, buf: bytes, s: bytes, bits: StringBits, flag: nat)
      returns (out: bytes)
    requires GoodTable(huff) && IsStringFlag(flag, bits)
    ensures out == buf + EncodeString(huff, s, bits, flag, true)
  {
    var len := HuffmanAccumulator.SumLengths(huff, s);
    var h := HFlag(flag, bits, len < |s|);
    if len < |s| {
      out := EncodeToVec(buf, len, bits, h);
      var code := HuffmanToVec(huff, s, len);
      out := out + code;
    } else {
      out := EncodeToVec(buf, |s|, bits, h);
      out := out + s;
    }
  }

  /** The zero-filled extension of the buffer that the code is then written into. */
  method HuffmanToVec(huff: seq<HuffmanSym>, s: bytes, len: nat) returns (code: bytes)
    requires GoodTable(huff) && len == Huffman.EncodedLen(huff, s)
    ensures code == Huffman.Encode(huff, s)
  {
    var room := new byte[len];
    ghost var before := room[..];
    var n := HuffmanAccumulator.EncodeAt(huff, room, 0, s);
    code := room[..];
    WholeSplice(before, Huffman.Encode(huff, s));
  }

  lemma WholeSplice(buf: bytes, code: bytes)
    requires |buf| == |code|
    ensures Splice(buf, 0, code) == code
  {
  }

  /** `wire::encode_string_with_prefix`, which writes at `start` or fails. */
  method EncodeStringAt(huff: seq<HuffmanSym>, buf: array<byte>, start: nat, s: bytes, bits: StringBits, flag: nat,
                        useHuffman: bool) returns (r: Option<nat>)
    requires GoodTable(huff) && IsStringFlag(flag, bits) && start <= buf.Length
    modifies buf
    ensures WriteResult(old(buf[..]), buf[..], start, EncodeString(huff, s, bits, flag, useHuffman), r)
  {
    if useHuffman {
      var len := HuffmanAccumulator.SumLengths(huff, s);
      if len < |s| {
        r := EncodeHuffmanAt(huff, buf, start, s, bits, HFlag(flag, bits, true), len);
        return;
      }
    }
    r := EncodePlainAt(buf, start, s, bits, HFlag(flag, bits, false));
  }

  method EncodeHuffmanAt(huff: seq<HuffmanSym>, buf: array<byte>, start: nat, s: bytes, bits: StringBits, flag: nat,
                         len: nat) returns (r: Option<nat>)
    requires GoodTable(huff) && IsFlag(flag, bits) && start <= buf.Length && len == Huffman.EncodedLen(huff, s)
    modifies buf
    ensures WriteResult(old(buf[..]), buf[..], start, Encode(len, bits, flag) + Huffman.Encode(huff, s), r)
  {
    ghost var a := buf[..];
    var n := EncodeLenAt(buf, start, len, bits, flag);
    ghost var b := buf[..];
    if n.None? {
      WriteBoth(a, b, b, start, Encode(len, bits, flag), Huffman.Encode(huff, s), n, None);
      return None;
    }
    var k := HuffmanAccumulator.EncodeAt(huff, buf, start + n.value, s);
    ghost var c := buf[..];
    KeepsBefore(b, c, start + n.value, Huffman.Encode(huff, s), k);
    WriteBoth(a, b, c, start, Encode(len, bits, flag), Huffman.Encode(huff, s), n, k);
    return if k.Some? then Some(n.value + len) else None;
  }

  lemma KeepsBefore(before: bytes, after: bytes, start: nat, code: bytes, r: Option<nat>)
    requires start <= |before|
    requires r == if start + |code| <= |before| then Some(|code|) else None
    requires after == if r.Some? then Splice(before, start, code) else before
    ensures WriteResult(before, after, start, code, r)
  {
  }

  method EncodeLenAt(buf: array<byte>, start: nat, v: nat, bits: PrefixBits, flag: nat) returns (r: Option<nat>)
    requires IsFlag(flag, bits) && start <= buf.Length
    modifies buf
    ensures WriteResult(old(buf[..]), buf[..], start, Encode(v, bits, flag), r)
  {
    r := EncodeAt(buf, start, v, bits, flag);
    assert buf[..][..start] == buf[..start];
  }

  method EncodePlainAt(buf: array<byte>, start: nat, s: bytes, bits: StringBits, flag: nat) returns (r: Option<nat>)
    requires IsFlag(flag, bits) && start <= buf.Length
    modifies buf
    ensures WriteResult(old(buf[..]), buf[..], start, Encode(|s|, bits, flag) + s, r)
  {
    ghost var a := buf[..];
    var n := EncodeLenAt(buf, start, |s|, bits, flag);
    ghost var b := buf[..];
    if n.None? {
      WriteBoth(a, b, b, start, Encode(|s|, bits, flag), s, n, None);
      return None;
    }
    var k := CopyAt(buf, start + n.value, s);
    WriteBoth(a, b, buf[..], start, Encode(|s|, bits, flag), s, n, k);
    return if k.Some? then Some(n.value + |s|) else None;
  }

  /** `decode_string_with_prefix` */
  method ReadString(huff: seq<HuffmanSym>, data: bytes, bits: StringBits) returns (r: Result<(bytes, nat)>)
    requires GoodTable(huff)
    ensures r == DecodeString(huff, data, bits)
  {
    if data == [] {
      return Err(BufferTooShort);
    }
    var head := DecodeLoop(data, bits);
    if head.Err? {
      return Err(head.error);
    }
    var (len, n) := head.value;
    var body := ReadWithLen(huff, data[n..], len, data[0] as nat / Pow2(bits) % 2 == 1);
    return if body.Err? then body else Ok((body.value.0, n + body.value.1));
  }

  /** `decode_string_with_len` */
  method ReadWithLen(huff: seq<HuffmanSym>, data: bytes, len: nat, h: bool) returns (r: Result<(bytes, nat)>)
    requires GoodTable(huff)
    ensures r == DecodeWithLen(huff, data, len, h)
  {
    if |data| < len {
      return Err(BufferTooShort);
    }
    if h {
      var s := HuffmanAccumulator.DecodeLoop(huff, data[..len]);
      return if s.Err? then Err(s.error) else Ok((s.value, len));
    }
    return Ok((data[..len], len));
  }
}
