/** `estimate_encoded_size` of `qpack/encoder.rs`: an upper bound on a static-only section. */
module SizeEstimate {
  import opened Bytes
  import opened Fields
  import opened FieldLines
  import opened FieldSection
  import opened PrefixInteger
  import opened StringLiteral

  function IntLen(v: nat, bits: PrefixBits): nat {
    |Encode(v, bits, 0)|
  }

  /** The length of a string that is not Huffman-coded. */
  function StringLen(s: bytes, bits: StringBits): nat {
    IntLen(|s|, bits) + |s|
  }

  function LineEstimate(k: Codebook, h: Header): nat {
    var m := Find(k.fixed, h.field);
    if m.exact.Some? then IntLen(m.exact.value, 6)
    else if m.name.Some? then IntLen(m.name.value, 4) + StringLen(h.field.value, 7)
    else StringLen(h.field.name, 3) + StringLen(h.field.value, 7)
  }

  function Estimate(k: Codebook, headers: seq<Header>): nat {
    if headers == [] then 2 else Estimate(k, headers[..|headers| - 1]) + LineEstimate(k, headers[|headers| - 1])
  }

  method EncodedStringLen(s: bytes, bits: StringBits) returns (len: nat)
    ensures len == StringLen(s, bits)
  {
    len := EncodedLen(|s|, bits);
    assert IsFlag(0, bits);
    len := len + |s|;
  }

  method EstimateLine(k: Codebook, h: Header) returns (size: nat)
    ensures size == LineEstimate(k, h)
  {
    hide Encode;
    assert IsFlag(0, 6) && IsFlag(0, 4);
    var m := Search(k.fixed, h.field);
    if m.exact.Some? {
      size := EncodedLen(m.exact.value, 6);
    } else if m.name.Some? {
      size := EncodedLen(m.name.value, 4);
      var value := EncodedStringLen(h.field.value, 7);
      size := size + value;
    } else {
      size := EncodedStringLen(h.field.name, 3);
      var value := EncodedStringLen(h.field.value, 7);
      size := size + value;
    }
  }

  method EstimateEncodedSize(k: Codebook, headers: seq<Header>) returns (size: nat)
    ensures size == Estimate(k, headers)
  {
    hide LineEstimate;
    size := 2;
    for i := 0 to |headers|
      invariant size == Estimate(k, headers[..i])
    {
      assert headers[..i + 1][..i] == headers[..i];
      var line := EstimateLine(k, headers[i]);
      size := size + line;
    }
    assert headers[..|headers|] == headers;
  }

  // ---- The bound --------------------------------------------------------------

  lemma {:induction false} GroupsMonotone(a: nat, b: nat)
    requires a <= b
    ensures |EncodeGroups(a)| <= |EncodeGroups(b)|
  {
    if a >= 128 {
      GroupsMonotone(a / 128, b / 128);
    }
  }

  lemma IntLenMonotone(a: nat, b: nat, bits: PrefixBits, flag: nat)
    requires a <= b && IsFlag(flag, bits)
    ensures |Encode(a, bits, flag)| <= IntLen(b, bits)
    ensures a == b ==> |Encode(a, bits, flag)| == IntLen(b, bits)
  {
    if a >= MaxPrefix(bits) {
      GroupsMonotone(a - MaxPrefix(bits), b - MaxPrefix(bits));
    }
  }

  /** Huffman coding is only used when it is shorter, so the plain length is a bound, and it
      is exact when Huffman coding is off. */
  lemma StringBound(k: Codebook, s: bytes, bits: StringBits, flag: nat, useHuffman: bool)
    requires Usable(k) && IsStringFlag(flag, bits)
    ensures |EncodeString(k.huffman, s, bits, flag, useHuffman)| <= StringLen(s, bits)
    ensures !useHuffman ==> |EncodeString(k.huffman, s, bits, flag, useHuffman)| == StringLen(s, bits)
  {
    hide Encode, DecodePayload, HFlag;
    PayloadRoundTrip(k.huffman, s, useHuffman);
    var payload := Payload(k.huffman, s, useHuffman);
    IntLenMonotone(|payload|, |s|, bits, HFlag(flag, bits, Shorter(k.huffman, s, useHuffman)));
  }

  lemma LineBound(k: Codebook, h: Header, useHuffman: bool)
    requires Usable(k)
    ensures |EncodeLine(k, StaticLineFor(k, h), useHuffman)| <= LineEstimate(k, h)
    ensures !useHuffman ==> |EncodeLine(k, StaticLineFor(k, h), useHuffman)| == LineEstimate(k, h)
  {
    hide Encode, EncodeString, Pow2, IntLen, StringLen;
    SmallPowers();
    var m := Find(k.fixed, h.field);
    StringBound(k, h.field.value, 7, 0, useHuffman);
    if m.exact.Some? {
      IntLenMonotone(m.exact.value, m.exact.value, 6, 0xc0);
    } else if m.name.Some? {
      IntLenMonotone(m.name.value, m.name.value, 4, if h.neverIndexed then 0x70 else 0x50);
    } else {
      StringBound(k, h.field.name, 3, if h.neverIndexed then 0x30 else 0x20, useHuffman);
    }
  }

  lemma {:induction false} LinesBound(k: Codebook, headers: seq<Header>, useHuffman: bool)
    requires Usable(k)
    ensures 2 + |EncodeLines(k, StaticLinesFor(k, headers), useHuffman)| <= Estimate(k, headers)
    ensures !useHuffman ==> 2 + |EncodeLines(k, StaticLinesFor(k, headers), useHuffman)| == Estimate(k, headers)
  {
    hide EncodeLine, LineEstimate, StaticLineFor;
    if headers != [] {
      var n := |headers| - 1;
      LinesBound(k, headers[..n], useHuffman);
      LineBound(k, headers[n], useHuffman);
      assert StaticLinesFor(k, headers)[..n] == StaticLinesFor(k, headers[..n]);
    }
  }

  /** A buffer of the estimated size always has room for a static-only section, Huffman on
      or off; with Huffman off the estimate is exact. */
  lemma EstimateSuffices(k: Codebook, headers: seq<Header>, useHuffman: bool)
    requires Usable(k)
    ensures |StaticSection(k, headers, useHuffman)| <= Estimate(k, headers)
    ensures !useHuffman ==> |StaticSection(k, headers, useHuffman)| == Estimate(k, headers)
    ensures forall before: bytes, after: bytes, r: Option<nat> ::
      (|before| >= Estimate(k, headers) && WriteResult(before, after, 0, StaticSection(k, headers, useHuffman), r)) ==>
        r.Some?
  {
    hide EncodeLines;
    LinesBound(k, headers, useHuffman);
    ZeroIsOneOctet();
  }

  lemma ZeroIsOneOctet()
    ensures IsFlag(0, 8) && |Encode(0, 8, 0)| == 1
  {
    SmallPowers();
  }
}
