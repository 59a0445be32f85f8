/** The loops of `qpack/huffman.rs`: bits are moved through a 64-bit accumulator whose
    shifts drop what leaves the word. The encoder keeps its pending bits at the top of the
    accumulator, the decoder at the bottom. */
module HuffmanAccumulator {
  import opened Bytes
  import opened BitStrings
  import opened HuffmanCode
  import opened Huffman

  /** `x << n` on 64 bits. */
  function ShlU64(x: nat, n: nat): (r: nat)
    ensures r < Pow2(64)
  {
    x * Pow2(n) % Pow2(64)
  }

  // ---- Bits at the top of the accumulator -----------------------------------

  ghost function Justified(p: bits): nat
    requires |p| <= 64
  {
    Value(p) * Pow2(64 - |p|)
  }

  lemma MulAssoc(a: nat, b: nat, c: nat)
    ensures a * b * c == a * (b * c)
  {
  }

  lemma Distribute(a: nat, b: nat, c: nat, k: nat, l: nat)
    requires l == b * k
    ensures (a * b + c) * k == a * l + c * k
  {
    MulAssoc(a, b, k);
  }

  lemma ScaleBound(v: nat, d: nat, k: nat)
    requires v < d && k > 0
    ensures v * k < d * k
  {
    MultipleBound(k, d - v);
    assert k * (d - v) == d * k - v * k;
  }

  lemma ShiftedCode(v: nat, b: nat, n: nat)
    requires b <= 32 && n <= 7
    ensures Shr(v * Pow2(32 - b) * Pow2(32), n) == v * Pow2(64 - b - n)
  {
    hide Pow2;
    var k := Pow2(64 - b - n);
    Pow2Add(64 - b - n, n);
    Pow2Add(32 - b, 32);
    ShiftedProduct(v, Pow2(32 - b), Pow2(32), k, Pow2(n));
  }

  lemma ShiftedProduct(v: nat, c: nat, d: nat, k: nat, m: nat)
    requires c * d == k * m && m > 0
    ensures v * c * d / m == v * k
  {
    MulAssoc(v, c, d);
    MulAssoc(v, k, m);
    var q := v * k;
    assert m * q + 0 == v * c * d;
    DivModUnique(m, q, 0);
  }

  lemma AppendWord(p: bits, h: HuffmanSym)
    requires |p| <= 7 && h.bits <= 30 && LeftJustified(h)
    ensures Justified(p) % Pow2(64 - |p|) == 0
    ensures Shr(h.code * Pow2(32), |p|) < Pow2(64 - |p|)
    ensures Justified(p) + Shr(h.code * Pow2(32), |p|) == Justified(p + WordOf(h))
  {
    hide Pow2, Value;
    var n, b, w := |p|, h.bits, WordOf(h);
    DivModUnique(Pow2(64 - n), Value(p), 0);
    ShiftedCode(Value(w), b, n);
    ValueBound(w);
    ScaleBound(Value(w), Pow2(b), Pow2(64 - b - n));
    Pow2Add(b, 64 - b - n);
    AppendValue(p, w);
  }

  lemma AppendValue(p: bits, w: bits)
    requires |p| + |w| <= 64
    ensures Justified(p + w) == Justified(p) + Value(w) * Pow2(64 - |p| - |w|)
  {
    hide Pow2, Value;
    ValueConcat(p, w);
    var vp, vw, vpw := Value(p), Value(w), Value(p + w);
    AppendNumbers(vp, |p|, vw, |w|, vpw);
  }

  lemma AppendNumbers(p: nat, np: nat, w: nat, nw: nat, pw: nat)
    requires np + nw <= 64 && pw == p * Pow2(nw) + w
    ensures pw * Pow2(64 - (np + nw)) == p * Pow2(64 - np) + w * Pow2(64 - np - nw)
  {
    hide Pow2;
    Pow2Add(nw, 64 - np - nw);
    Distribute(p, Pow2(nw), w, Pow2(64 - np - nw), Pow2(64 - np));
  }

  lemma TopOctet(p: bits)
    requires 8 <= |p| <= 64
    ensures Value(p[..8]) < 256
    ensures Shr(Justified(p), 56) == Value(p[..8])
    ensures ShlU64(Justified(p), 8) == Justified(p[8..])
  {
    hide Pow2, Value;
    var n := |p|;
    Pow2Values();
    ValueBound(p[..8]);
    ValueBound(p[8..]);
    ValueSplit(p, 8);
    Pow2Add(n - 8, 64 - n);
    Pow2Add(8, 64 - n);
    TopDigit(Value(p), Value(p[..8]), Value(p[8..]), Pow2(n - 8), Pow2(64 - n), Pow2(56));
  }

  /** `v` has the leading digit `a` above `b`; scaled up by `f`, the digit stands at `t`. */
  lemma TopDigit(v: nat, a: nat, b: nat, e: nat, f: nat, t: nat)
    requires v == a * e + b && b < e && t == e * f && f > 0
    ensures v * f / t == a
    ensures v * f * 256 % (256 * t) == b * (256 * f)
  {
    Distribute(a, e, b, f, t);
    ScaleBound(b, e, f);
    DivModUnique(t, a, b * f);
    MulAssoc(256, t, a);
    DivModUnique(256 * t, a, b * f * 256);
  }

  lemma LastOctet(p: bits)
    requires 0 < |p| < 8
    ensures Shr(Justified(p), 56) == Value(p) * Pow2(8 - |p|)
    ensures Value(p) * Pow2(8 - |p|) % Pow2(8 - |p|) == 0
    ensures Value(p) * Pow2(8 - |p|) + (Pow2(8 - |p|) - 1) == Value(p + Ones(8 - |p|)) < 256
  {
    hide Pow2, Value, Ones;
    var k := 8 - |p|;
    Pow2Values();
    Pow2Add(k, 56);
    MulAssoc(Value(p), Pow2(k), Pow2(56));
    var v, q := Value(p), Pow2(k);
    DivModUnique(Pow2(56), v * q, 0);
    DivModUnique(q, v, 0);
    ValueConcat(p, Ones(k));
    OnesValue(k);
    ValueBound(p + Ones(k));
  }

  // ---- Encoding -----------------------------------------------------------

  /** `encoded_len` */
  method SumLengths(t: seq<HuffmanSym>, data: bytes) returns (len: nat)
    requires |t| == EOS + 1
    ensures len == EncodedLen(t, data)
  {
    var total := 0;
    for i := 0 to |data|
      invariant total == |EncodeBits(t, data[..i])|
    {
      assert data[..i + 1][..i] == data[..i];
      total := total + t[data[i]].bits;
    }
    assert data[..|data|] == data;
    len := (total + 7) / 8;
  }

  /** `encode`: writes at `start`, or refuses when the buffer is too short. */
  method EncodeAt(t: seq<HuffmanSym>, buf: array<byte>, start: nat, data: bytes) returns (r: Option<nat>)
    requires GoodTable(t) && start <= buf.Length
    modifies buf
    ensures r == if start + |Encode(t, data)| <= buf.Length then Some(|Encode(t, data)|) else None
    ensures buf[..] == if r.Some? then Splice(old(buf[..]), start, Encode(t, data)) else old(buf[..])
  {
    var required := SumLengths(t, data);
    if buf.Length < start + required {
      return None;
    }
    var acc, accBits, offset := 0, 0, 0;
    ghost var pre, soFar, pending: bits := buf[..], [], [];
    for i := 0 to |data|
      invariant InStep(acc, accBits, offset, soFar, pending) && accBits <= 7
      invariant Unpack(soFar) + pending == EncodeBits(t, data[..i])
      invariant Written(buf, start, pre, soFar)
    {
      assert data[..i + 1][..i] == data[..i];
      PrefixFits(t, data, i + 1);
      acc, accBits, offset, soFar, pending := Push(buf, start, pre, t[data[i]], acc, accBits, offset, soFar, pending);
    }
    assert data[..|data|] == data;
    offset := Pad(t, buf, start, pre, data, acc, accBits, offset, soFar, pending);
    return Some(offset);
  }

  method Pad(t: seq<HuffmanSym>, buf: array<byte>, start: nat, ghost pre: bytes, ghost data: bytes,
             acc: nat, accBits: nat, offset: nat, ghost soFar: bytes, ghost pending: bits) returns (len: nat)
    requires |t| == EOS + 1 && InStep(acc, accBits, offset, soFar, pending) && accBits <= 7
    requires Unpack(soFar) + pending == EncodeBits(t, data)
    requires Written(buf, start, pre, soFar) && start + |Encode(t, data)| <= buf.Length
    modifies buf
    ensures len == |Encode(t, data)| && buf[..] == Splice(pre, start, Encode(t, data))
  {
    Finished(t, data, soFar, pending);
    len := offset;
    if accBits > 0 {
      buf[start + offset] := PadOctet(acc, accBits, pending);
      len := len + 1;
    }
  }

  /** The encoder's registers hold the bits `pending`; `offset` octets are out. */
  ghost predicate InStep(acc: nat, accBits: nat, offset: nat, soFar: bytes, pending: bits) {
    accBits == |pending| <= 64 && acc == Justified(pending) && offset == |soFar|
  }

  ghost predicate Written(buf: array<byte>, start: nat, pre: bytes, soFar: bytes)
    reads buf
  {
    |pre| == buf.Length && start + |soFar| <= buf.Length && buf[..] == Splice(pre, start, soFar)
  }

  /** One symbol enters the accumulator; every whole octet leaves at its top. */
  method Push(buf: array<byte>, start: nat, ghost pre: bytes, h: HuffmanSym,
              acc0: nat, accBits0: nat, offset0: nat, ghost soFar0: bytes, ghost pending0: bits)
    returns (acc: nat, accBits: nat, offset: nat, ghost soFar: bytes, ghost pending: bits)
    requires Written(buf, start, pre, soFar0)
    requires InStep(acc0, accBits0, offset0, soFar0, pending0) && accBits0 <= 7
    requires h.bits <= 30 && LeftJustified(h)
    requires start + (8 * |soFar0| + |pending0| + h.bits) / 8 <= buf.Length
    modifies buf
    ensures InStep(acc, accBits, offset, soFar, pending) && accBits <= 7
    ensures Unpack(soFar) + pending == Unpack(soFar0) + pending0 + WordOf(h)
    ensures Written(buf, start, pre, soFar)
  {
    hide Pow2, Value, Unpack, WordOf, LeftJustified;
    AppendWord(pending0, h);
    acc, accBits := DisjointOr(acc0, Shr(h.code * Pow2(32), accBits0), 64 - accBits0), accBits0 + h.bits;
    Assoc(Unpack(soFar0), pending0, WordOf(h));
    acc, accBits, offset, soFar, pending := Flush(buf, start, pre, acc, accBits, offset0, soFar0, pending0 + WordOf(h));
  }

  method Flush(buf: array<byte>, start: nat, ghost pre: bytes,
               acc0: nat, accBits0: nat, offset0: nat, ghost soFar0: bytes, ghost pending0: bits)
    returns (acc: nat, accBits: nat, offset: nat, ghost soFar: bytes, ghost pending: bits)
    requires Written(buf, start, pre, soFar0) && InStep(acc0, accBits0, offset0, soFar0, pending0)
    requires start + (8 * |soFar0| + |pending0|) / 8 <= buf.Length
    modifies buf
    ensures InStep(acc, accBits, offset, soFar, pending) && accBits <= 7
    ensures Unpack(soFar) + pending == Unpack(soFar0) + pending0
    ensures Written(buf, start, pre, soFar)
  {
    hide Pow2, Value, Unpack;
    acc, accBits, offset, soFar, pending := acc0, accBits0, offset0, soFar0, pending0;
    ghost var code := Unpack(soFar) + pending;
    while accBits >= 8
      invariant InStep(acc, accBits, offset, soFar, pending) && Unpack(soFar) + pending == code
      invariant Written(buf, start, pre, soFar)
    {
      TopOctet(pending);
      MoveOctet(soFar, pending);
      var octet := Shr(acc, 56) as byte;
      buf[start + offset] := octet;
      offset, acc, accBits := offset + 1, ShlU64(acc, 8), accBits - 8;
      soFar, pending := soFar + [octet], pending[8..];
    }
  }

  function PadOctet(acc: nat, accBits: nat, ghost pending: bits): (b: byte)
    requires 0 < accBits == |pending| < 8 && acc == Justified(pending)
    ensures b as nat == Value(pending + Ones(8 - |pending|))
  {
    LastOctet(pending);
    DisjointOr(Shr(acc, 56), Pow2(8 - accBits) - 1, 8 - accBits) as byte
  }

  lemma MoveOctet(soFar: bytes, pending: bits)
    requires |pending| >= 8
    ensures Value(pending[..8]) < 256
    ensures Unpack(soFar + [Value(pending[..8]) as byte]) + pending[8..] == Unpack(soFar) + pending
  {
    Pow2Values();
    ValueBound(pending[..8]);
    ToBitsValue(pending[..8]);
    var b := Value(pending[..8]) as byte;
    assert (soFar + [b])[..|soFar|] == soFar;
    assert pending == pending[..8] + pending[8..];
  }

  lemma {:induction false} PrefixFits(t: seq<HuffmanSym>, data: bytes, i: nat)
    requires |t| == EOS + 1 && i <= |data|
    ensures |EncodeBits(t, data[..i])| / 8 <= EncodedLen(t, data)
  {
    EncodeBitsConcat(t, data[..i], data[i..]);
    assert data == data[..i] + data[i..];
  }

  /** What the last, padded octet completes. */
  lemma Finished(t: seq<HuffmanSym>, data: bytes, soFar: bytes, pending: bits)
    requires |t| == EOS + 1 && |pending| <= 7 && Unpack(soFar) + pending == EncodeBits(t, data)
    ensures pending == [] ==> soFar == Encode(t, data)
    ensures pending != [] ==>
      Value(pending + Ones(8 - |pending|)) < 256
      && soFar + [Value(pending + Ones(8 - |pending|)) as byte] == Encode(t, data)
  {
    if pending == [] {
      PaddedIsEncoded(t, soFar, data, 0);
    } else {
      var last := pending + Ones(8 - |pending|);
      MoveOctet(soFar, last);
      assert last[..8] == last;
      var out := soFar + [Value(last) as byte];
      assert Unpack(out) == Unpack(soFar) + last;
      PaddedIsEncoded(t, out, data, 8 - |pending|);
    }
  }

  // ---- Decoding -----------------------------------------------------------

  function Zeros(n: nat): (r: bits)
    ensures |r| == n
  {
    seq(n, i => false)
  }

  lemma {:induction false} ZerosValue(n: nat)
    ensures Value(Zeros(n)) == 0
  {
    if n > 0 {
      ZerosValue(n - 1);
      assert Zeros(n)[..n - 1] == Zeros(n - 1);
    }
  }

  /** The first 32 unread bits, filled up with zeros. */
  ghost function Top32(s: bits): (r: bits)
    ensures |r| == 32
  {
    if |s| >= 32 then s[..32] else s + Zeros(32 - |s|)
  }

  /** The unread bits left-justified in a 32-bit word. */
  function Current(acc: nat, accBits: nat): nat {
    if accBits >= 32 then Shr(acc, accBits - 32) % Pow2(32) else ShlU64(acc, 32 - accBits) % Pow2(32)
  }

  lemma SmallMod(x: nat, m: nat)
    requires x < m
    ensures x % m == x
  {
  }

  lemma CurrentIsTop32(s: bits)
    ensures Current(Value(s), |s|) == Value(Top32(s))
  {
    ValueBound(Top32(s));
    SmallMod(Value(Top32(s)), Pow2(32));
    if |s| >= 32 {
      ValueSplit(s, 32);
    } else {
      FilledUp(s);
    }
  }

  lemma FilledUp(s: bits)
    requires |s| < 32
    ensures ShlU64(Value(s), 32 - |s|) == Value(Top32(s))
  {
    hide Pow2, Value, ShlU64, Zeros;
    ZerosValue(32 - |s|);
    FillValue(s, Zeros(32 - |s|));
  }

  lemma FillValue(s: bits, z: bits)
    requires |s| + |z| == 32 && Value(z) == 0
    ensures ShlU64(Value(s), 32 - |s|) == Value(s + z)
  {
    hide Pow2, Value;
    ValueConcat(s, z);
    ValueBound(s + z);
    FillNumbers(Value(s), 32 - |s|, Value(s + z));
  }

  lemma FillNumbers(v: nat, k: nat, top: nat)
    requires top == v * Pow2(k) + 0 && top < Pow2(32)
    ensures ShlU64(v, k) == top
  {
    hide Pow2;
    Pow2Monotone(32, 64);
    SmallMod(top, Pow2(64));
  }

  /** `current & mask` for the mask that keeps the first `n` of 32 bits. */
  function KeepTop(current: nat, n: nat): (r: nat)
    requires n <= 32
  {
    current / Pow2(32 - n) * Pow2(32 - n)
  }

  lemma KeepTopMatches(s: bits, h: HuffmanSym)
    requires h.bits <= |s| && LeftJustified(h)
    ensures KeepTop(Value(Top32(s)), h.bits) == h.code <==> StartsWith(s, h)
  {
    var x, b := Top32(s), h.bits;
    ValueSplit(x, b);
    assert x[..b] == s[..b];
    SameMultiple(Value(x[..b]), Value(WordOf(h)), Pow2(32 - b));
    SameValue(s[..b], WordOf(h));
  }

  lemma SameMultiple(a: nat, b: nat, k: nat)
    requires k > 0
    ensures a * k == b * k <==> a == b
  {
    MultipleBound(k, a - b);
    assert k * (a - b) == a * k - b * k;
  }

  /** The scan of the code table for a word that starts the unread bits. */
  method FindSymbol(t: seq<HuffmanSym>, acc: nat, accBits: nat, ghost s: bits) returns (r: Option<nat>)
    requires GoodTable(t) && accBits == |s| && acc == Value(s)
    ensures r == FirstMatch(t, s, 0)
  {
    CurrentIsTop32(s);
    var current := Current(acc, accBits);
    for sym := 0 to |t|
      invariant FirstMatch(t, s, 0) == FirstMatch(t, s, sym)
    {
      if t[sym].bits <= accBits {
        KeepTopMatches(s, t[sym]);
        if KeepTop(current, t[sym].bits) == t[sym].code {
          return Some(sym);
        }
      }
    }
    return None;
  }

  lemma EmptyValue(s: bits)
    ensures s == [] ==> Value(s) == 0
  {
  }

  lemma TableShape(t: seq<HuffmanSym>)
    requires GoodTable(t)
    ensures |t| == EOS + 1 && forall sym :: 0 <= sym <= EOS ==> 5 <= t[sym].bits <= 30
  {
  }

  lemma PrependPrepend(a: bytes, b: bytes, r: ParseResult)
    ensures Prepend(a, Prepend(b, r)) == Prepend(a + b, r)
  {
    if r.Parsed? {
      assert a + (b + r.symbols) == a + b + r.symbols;
    }
  }

  /** A code word in the accumulator is the next symbol, whatever octets follow. */
  lemma StepAhead(t: seq<HuffmanSym>, s: bits, ahead: bits, sym: nat)
    requires GoodTable(t) && FirstMatch(t, s, 0) == Some(sym)
    ensures t[sym].bits <= |s|
    ensures Parse(t, s + ahead)
         == if sym == EOS then SawEos else Prepend([sym as byte], Parse(t, s[t[sym].bits..] + ahead))
  {
    MatchIs(t, sym, s + ahead);
    assert (s + ahead)[t[sym].bits..] == s[t[sym].bits..] + ahead;
  }

  lemma FeedOctet(s: bits, b: byte)
    requires |s| <= 29
    ensures Value(s) * 256 + b as nat == Value(s + ToBits(b as nat, 8))
    ensures ShlU64(Value(s), 8) == Value(s) * 256 && ShlU64(Value(s), 8) % Pow2(8) == 0
  {
    hide Pow2, Value, ToBits;
    Pow2Values();
    ValueToBits(b as nat, 8);
    ValueConcat(s, ToBits(b as nat, 8));
    ValueBound(s);
    Pow2Monotone(|s|, 30);
    SmallMod(Value(s) * 256, Pow2(64));
  }

  function FeedByte(acc: nat, b: byte, ghost s: bits): (r: nat)
    requires |s| <= 29 && acc == Value(s)
    ensures r == Value(s + ToBits(b as nat, 8))
  {
    FeedOctet(s, b);
    DisjointOr(ShlU64(acc, 8), b as nat, 8)
  }

  /** `decode`. The accumulator never holds more than 37 bits, so no shift loses any. */
  method DecodeLoop(t: seq<HuffmanSym>, data: bytes) returns (r: Result<bytes>)
    requires GoodTable(t)
    ensures r == Decode(t, data)
  {
    hide Pow2, Parse, FirstMatch, GoodTable;
    var result, acc, accBits := [], 0, 0;
    ghost var s: bits := [];
    StartState(t, data);
    for i := 0 to |data|
      invariant accBits == |s| <= 29 && acc == Value(s)
      invariant FirstMatch(t, s, 0).None?
      invariant Parse(t, Unpack(data)) == Prepend(result, Parse(t, s + Unpack(data[i..])))
    {
      TakeOctet(s, data[i..]);
      assert data[i..][1..] == data[i + 1..];
      var eos, found;
      eos, found, acc, accBits, s := Absorb(t, acc, accBits, data[i], s, Unpack(data[i + 1..]));
      if eos {
        return Err(InvalidHuffman);
      }
      PrependPrepend(result, found, Parse(t, s + Unpack(data[i + 1..])));
      result := result + found;
    }
    EndState(t, result, s);
    assert data[|data|..] == [];
    r := CheckPadding(result, acc, accBits, s);
  }

  lemma StartState(t: seq<HuffmanSym>, data: bytes)
    requires GoodTable(t)
    ensures FirstMatch(t, [], 0).None?
    ensures Parse(t, Unpack(data)) == Prepend([], Parse(t, [] + Unpack(data[0..])))
  {
    assert data[0..] == data && [] + Unpack(data) == Unpack(data);
    var r := Parse(t, Unpack(data));
    if r.Parsed? {
      assert [] + r.symbols == r.symbols;
    }
  }

  lemma EndState(t: seq<HuffmanSym>, result: bytes, s: bits)
    requires GoodTable(t) && FirstMatch(t, s, 0).None?
    ensures Prepend(result, Parse(t, s + Unpack([]))) == Parsed(result, s)
  {
    assert s + Unpack([]) == s;
    assert result + [] == result;
  }

  /** One octet enters the accumulator and the symbols it completes leave. */
  method Absorb(t: seq<HuffmanSym>, acc0: nat, accBits0: nat, b: byte, ghost s0: bits, ghost ahead: bits)
    returns (eos: bool, found: bytes, acc: nat, accBits: nat, ghost s: bits)
    requires GoodTable(t) && accBits0 == |s0| <= 29 && acc0 == Value(s0)
    ensures eos ==> Parse(t, s0 + ToBits(b as nat, 8) + ahead) == SawEos
    ensures !eos ==> accBits == |s| <= 29 && acc == Value(s) && FirstMatch(t, s, 0).None?
    ensures !eos ==> Parse(t, s0 + ToBits(b as nat, 8) + ahead) == Prepend(found, Parse(t, s + ahead))
  {
    hide Pow2, Value, Parse, FirstMatch, Prepend, ToBits, GoodTable, FeedByte;
    acc := FeedByte(acc0, b, s0);
    eos, found, acc, accBits, s := Drain(t, acc, accBits0 + 8, s0 + ToBits(b as nat, 8), ahead);
    if !eos {
      RestIsShort(t, s);
    }
  }

  lemma TakeOctet(s: bits, data: bytes)
    requires data != []
    ensures s + Unpack(data) == s + ToBits(data[0] as nat, 8) + Unpack(data[1..])
  {
    assert data == [data[0]] + data[1..];
    UnpackConcat([data[0]], data[1..]);
    assert [data[0]][..0] == [];
    assert Unpack([data[0]]) == [] + ToBits(data[0] as nat, 8);
    Assoc(s, ToBits(data[0] as nat, 8), Unpack(data[1..]));
  }

  /** Emits symbols while the accumulator starts with a code word. */
  method Drain(t: seq<HuffmanSym>, acc0: nat, accBits0: nat, ghost s0: bits, ghost ahead: bits)
    returns (eos: bool, found: bytes, acc: nat, accBits: nat, ghost s: bits)
    requires GoodTable(t) && accBits0 == |s0| <= 37 && acc0 == Value(s0)
    ensures eos ==> Parse(t, s0 + ahead) == SawEos
    ensures !eos ==> accBits == |s| && acc == Value(s) && FirstMatch(t, s, 0).None?
    ensures !eos ==> Parse(t, s0 + ahead) == Prepend(found, Parse(t, s + ahead))
  {
    hide Pow2, Value, Parse, FirstMatch, GoodTable;
    TableShape(t);
    eos, found, acc, accBits, s := false, [], acc0, accBits0, s0;
    while accBits >= 5
      invariant accBits == |s| <= 37 && acc == Value(s)
      invariant Parse(t, s0 + ahead) == Prepend(found, Parse(t, s + ahead))
    {
      var m := FindSymbol(t, acc, accBits, s);
      if m.None? {
        return;
      }
      StepAhead(t, s, ahead, m.value);
      if m.value == EOS {
        eos := true;
        return;
      }
      PrependPrepend(found, [m.value as byte], Parse(t, s[t[m.value].bits..] + ahead));
      ValueSplit(s, t[m.value].bits);
      found, accBits, s := found + [m.value as byte], accBits - t[m.value].bits, s[t[m.value].bits..];
      EmptyValue(s);
      acc := if accBits > 0 then acc % Pow2(accBits) else 0;
    }
  }

  lemma IsPadding(s: bits)
    ensures Value(s) % Pow2(|s|) == Pow2(|s|) - 1 <==> s == Ones(|s|)
  {
    ValueBound(s);
    SmallMod(Value(s), Pow2(|s|));
    OnesValue(|s|);
    SameValue(s, Ones(|s|));
  }

  /** The checks after the last octet: what remains must be padding. */
  method CheckPadding(result: bytes, acc: nat, accBits: nat, ghost s: bits) returns (r: Result<bytes>)
    requires accBits == |s| && acc == Value(s)
    ensures r == Verdict(Parsed(result, s))
  {
    IsPadding(s);
    if 0 < accBits <= 7 {
      var mask := Pow2(accBits) - 1;
      if acc % Pow2(accBits) == mask {
        return Ok(result);
      }
      return Err(InvalidHuffman);
    }
    if accBits > 7 {
      return Err(InvalidHuffman);
    }
    assert s == Ones(0);
    return Ok(result);
  }
}
