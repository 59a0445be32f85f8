/** The Huffman coding of string literals (section 5.2 of RFC 7541): the bit-accumulating
    encoder and the table-scanning decoder of `qpack/huffman.rs`, for any good table. */
module Huffman {
  import opened Bytes
  import opened BitStrings
  import opened HuffmanCode

  // ---- Specification ------------------------------------------------------

  function EncodeBits(t: seq<HuffmanSym>, s: bytes): bits
    requires |t| == EOS + 1
  {
    if s == [] then [] else EncodeBits(t, s[..|s| - 1]) + WordOf(t[s[|s| - 1]])
  }

  function EncodedLen(t: seq<HuffmanSym>, s: bytes): nat
    requires |t| == EOS + 1
  {
    (|EncodeBits(t, s)| + 7) / 8
  }

  function PadLen(n: nat): (k: nat)
    ensures k <= 7 && (n + k) % 8 == 0 && (n + k) / 8 == (n + 7) / 8
  {
    (8 - n % 8) % 8
  }

  function Encode(t: seq<HuffmanSym>, s: bytes): (r: bytes)
    requires |t| == EOS + 1
    ensures |r| == EncodedLen(t, s)
  {
    Pack(EncodeBits(t, s) + Ones(PadLen(|EncodeBits(t, s)|)))
  }

  /** The first symbol, from `i` on, whose code word starts `s`. */
  function FirstMatch(t: seq<HuffmanSym>, s: bits, i: nat): (r: Option<nat>)
    ensures r.Some? ==> i <= r.value < |t| && StartsWith(s, t[r.value])
    ensures r.None? ==> forall sym :: i <= sym < |t| ==> !StartsWith(s, t[sym])
    decreases |t| - i
  {
    if i >= |t| then None else if StartsWith(s, t[i]) then Some(i) else FirstMatch(t, s, i + 1)
  }

  datatype ParseResult = Parsed(symbols: bytes, rest: bits) | SawEos

  function Prepend(s: bytes, r: ParseResult): ParseResult {
    match r
    case SawEos => SawEos
    case Parsed(more, rest) => Parsed(s + more, rest)
  }

  /** Strips code words off the front for as long as one is there. */
  ghost function Parse(t: seq<HuffmanSym>, s: bits): ParseResult
    requires GoodTable(t)
    decreases |s|
  {
    match FirstMatch(t, s, 0)
    case None => Parsed([], s)
    case Some(sym) =>
      if sym == EOS then SawEos else Prepend([sym as byte], Parse(t, s[t[sym].bits..]))
  }

  ghost function Verdict(r: ParseResult): Result<bytes> {
    match r
    case SawEos => Err(InvalidHuffman)
    case Parsed(s, rest) =>
      if |rest| <= 7 && rest == Ones(|rest|) then Ok(s) else Err(InvalidHuffman)
  }

  ghost function Decode(t: seq<HuffmanSym>, data: bytes): Result<bytes>
    requires GoodTable(t)
  {
    Verdict(Parse(t, Unpack(data)))
  }

  // ---- Encoding and decoding are inverse -----------------------------------

  lemma Assoc(a: bits, b: bits, c: bits)
    ensures a + b + c == a + (b + c)
  {
  }

  lemma {:induction false} EncodeBitsConcat(t: seq<HuffmanSym>, a: bytes, b: bytes)
    requires |t| == EOS + 1
    ensures EncodeBits(t, a + b) == EncodeBits(t, a) + EncodeBits(t, b)
    decreases |b|
  {
    hide WordOf;
    if b == [] {
      assert a + b == a;
    } else {
      var c := b[..|b| - 1];
      var w := WordOf(t[b[|b| - 1]]);
      EncodeBitsConcat(t, a, c);
      assert (a + b)[..|a + b| - 1] == a + c;
      Assoc(EncodeBits(t, a), EncodeBits(t, c), w);
    }
  }

  lemma EncodeBitsCons(t: seq<HuffmanSym>, b: byte, s: bytes)
    requires |t| == EOS + 1
    ensures EncodeBits(t, [b] + s) == WordOf(t[b]) + EncodeBits(t, s)
  {
    hide WordOf;
    EncodeBitsConcat(t, [b], s);
    assert [b][..0] == [];
    assert EncodeBits(t, [b]) == EncodeBits(t, []) + WordOf(t[b]);
  }

  lemma MatchIs(t: seq<HuffmanSym>, sym: nat, s: bits)
    requires GoodTable(t) && sym <= EOS && StartsWith(s, t[sym])
    ensures FirstMatch(t, s, 0) == Some(sym)
  {
    var m := FirstMatch(t, s, 0);
    assert StartsWith(s, t[m.value]);
  }

  lemma ParseStep(t: seq<HuffmanSym>, b: byte, tail: bits)
    requires GoodTable(t)
    ensures Parse(t, WordOf(t[b]) + tail) == Prepend([b], Parse(t, tail))
  {
    var w := WordOf(t[b]);
    MatchIs(t, b as nat, w + tail);
    assert (w + tail)[|w|..] == tail;
  }

  lemma {:induction false} ParseEncoded(t: seq<HuffmanSym>, s: bytes, rest: bits)
    requires GoodTable(t) && FirstMatch(t, rest, 0).None?
    ensures Parse(t, EncodeBits(t, s) + rest) == Parsed(s, rest)
  {
    if s == [] {
      assert [] + rest == rest;
    } else {
      assert s == [s[0]] + s[1..];
      EncodeBitsCons(t, s[0], s[1..]);
      Assoc(WordOf(t[s[0]]), EncodeBits(t, s[1..]), rest);
      ParseStep(t, s[0], EncodeBits(t, s[1..]) + rest);
      ParseEncoded(t, s[1..], rest);
    }
  }

  lemma ParseFirst(t: seq<HuffmanSym>, b: bits, sym: nat)
    requires GoodTable(t) && FirstMatch(t, b, 0) == Some(sym)
    ensures |t| == EOS + 1 && sym <= EOS && 5 <= t[sym].bits <= |b|
    ensures |WordOf(t[sym])| == t[sym].bits && WordOf(t[sym]) + b[t[sym].bits..] == b
  {
    hide PrefixFree, Complete, LeftJustified;
    assert StartsWith(b, t[sym]);
    assert b == b[..t[sym].bits] + b[t[sym].bits..];
  }

  lemma {:induction false} ParseSound(t: seq<HuffmanSym>, b: bits)
    requires GoodTable(t) && Parse(t, b).Parsed?
    ensures b == EncodeBits(t, Parse(t, b).symbols) + Parse(t, b).rest
    decreases |b|
  {
    hide GoodTable, WordOf, FirstMatch;
    var m := FirstMatch(t, b, 0);
    if m.Some? {
      ParseFirst(t, b, m.value);
      var w := WordOf(t[m.value]);
      var tail := b[|w|..];
      ParseSound(t, tail);
      var rest := Parse(t, tail);
      EncodeBitsCons(t, m.value as byte, rest.symbols);
      Assoc(w, EncodeBits(t, rest.symbols), rest.rest);
      assert b == w + tail;
    } else {
      assert [] + b == b;
    }
  }

  lemma PaddingIsRest(t: seq<HuffmanSym>, k: nat)
    requires GoodTable(t) && k <= 7
    ensures FirstMatch(t, Ones(k), 0).None?
  {
    var m := FirstMatch(t, Ones(k), 0);
    if m.Some? {
      PaddingStartsNothing(t, m.value, k);
    }
  }

  lemma DecodeEncoded(t: seq<HuffmanSym>, s: bytes)
    requires GoodTable(t)
    ensures Decode(t, Encode(t, s)) == Ok(s)
  {
    var code := EncodeBits(t, s);
    var k := PadLen(|code|);
    UnpackPack(code + Ones(k));
    PaddingIsRest(t, k);
    ParseEncoded(t, s, Ones(k));
  }

  lemma DecodeSound(t: seq<HuffmanSym>, data: bytes, s: bytes)
    requires GoodTable(t) && Decode(t, data) == Ok(s)
    ensures data == Encode(t, s)
  {
    ParseSound(t, Unpack(data));
    PaddedIsEncoded(t, data, s, |Parse(t, Unpack(data)).rest|);
  }

  lemma PaddedIsEncoded(t: seq<HuffmanSym>, data: bytes, s: bytes, k: nat)
    requires |t| == EOS + 1 && k <= 7 && Unpack(data) == EncodeBits(t, s) + Ones(k)
    ensures data == Encode(t, s)
  {
    PadUnique(|EncodeBits(t, s)|, k, |data|);
    UnpackPack(Unpack(data));
    UnpackInjective(data, Pack(Unpack(data)));
  }

  lemma PadUnique(n: nat, k: nat, octets: nat)
    requires k <= 7 && n + k == 8 * octets
    ensures k == PadLen(n)
  {
  }

  /** An octet string decodes to `s` exactly when it is the encoding of `s`. */
  lemma Inverse(t: seq<HuffmanSym>, data: bytes, s: bytes)
    requires GoodTable(t)
    ensures Decode(t, data) == Ok(s) <==> data == Encode(t, s)
  {
    DecodeEncoded(t, s);
    if Decode(t, data) == Ok(s) {
      DecodeSound(t, data, s);
    }
  }

  /** What is left when no code word starts the unread bits is short: this bounds the
      decoder's accumulator. */
  lemma RestIsShort(t: seq<HuffmanSym>, rest: bits)
    requires GoodTable(t) && FirstMatch(t, rest, 0).None?
    ensures |rest| <= 29
  {
    assert LongEnough(rest) <==> |rest| >= 30;
  }
}
