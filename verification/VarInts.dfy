/** Variable-length integers (section 16 of RFC 9000): the two high bits of the first octet
    give the length, the rest is big-endian. */
module VarInts {
  import opened Bytes

  const MAX: nat := 0x3FFF_FFFF_FFFF_FFFF

  type varint = v: nat | v <= MAX

  function Length(v: varint): (n: nat)
    ensures n == 1 || n == 2 || n == 4 || n == 8
  {
    if v < 64 then 1 else if v < 16384 then 2 else if v < 1073741824 then 4 else 8
  }

  /** `n` octets, most significant first. */
  function BigEndian(v: nat, n: nat): (r: bytes)
    ensures |r| == n
  {
    if n == 0 then [] else BigEndian(v / 256, n - 1) + [(v % 256) as byte]
  }

  function FromBigEndian(b: bytes): nat {
    if b == [] then 0 else 256 * FromBigEndian(b[..|b| - 1]) + b[|b| - 1] as nat
  }

  /** The length bits in place: 00, 01, 10 or 11 above `8 * n - 2` bits of value. */
  function Tag(n: nat): nat {
    if n == 1 then 0 else if n == 2 then 0x4000 else if n == 4 then 0x8000_0000 else 0xC000_0000_0000_0000
  }

  /** One more than the largest value in `n` octets. */
  function Span(n: nat): (s: nat)
    ensures s > 0
  {
    if n == 1 then 0x40 else if n == 2 then 0x4000 else if n == 4 then 0x4000_0000 else 0x4000_0000_0000_0000
  }

  function Encode(v: varint): (r: bytes)
    ensures |r| == Length(v)
  {
    BigEndian(Tag(Length(v)) + v, Length(v))
  }

  /** The length that the first octet announces. */
  function LengthFrom(first: byte): (n: nat)
    ensures n == 1 || n == 2 || n == 4 || n == 8
  {
    if first < 64 then 1 else if first < 128 then 2 else if first < 192 then 4 else 8
  }

  /** None while the announced octets have not all arrived. */
  function Decode(buf: bytes): (r: Option<(varint, nat)>)
    ensures r.Some? ==> 1 <= r.value.1 <= |buf|
  {
    if buf == [] then None
    else
      var n := LengthFrom(buf[0]);
      if |buf| < n then None
      else
        var v := FromBigEndian(buf[..n]) % Span(n);
        SpanBound(FromBigEndian(buf[..n]), n);
        Some((v, n))
  }

  lemma SpanBound(x: nat, n: nat)
    requires n == 1 || n == 2 || n == 4 || n == 8
    ensures 0 <= x % Span(n) <= MAX
  {
  }

  // ---- Round trip -----------------------------------------------------------

  function Pow256(n: nat): (p: nat)
    ensures p > 0
  {
    if n == 0 then 1 else 256 * Pow256(n - 1)
  }

  lemma {:induction false} BigEndianRoundTrip(v: nat, n: nat)
    requires v < Pow256(n)
    ensures FromBigEndian(BigEndian(v, n)) == v
  {
    if n > 0 {
      BigEndianRoundTrip(v / 256, n - 1);
      var r := BigEndian(v, n);
      assert r[..|r| - 1] == BigEndian(v / 256, n - 1);
    }
  }

  /** The first octet is the most significant digit. */
  lemma {:induction false} FirstOctet(v: nat, n: nat)
    requires n > 0 && v < Pow256(n)
    ensures BigEndian(v, n)[0] as nat == v / Pow256(n - 1)
  {
    if n > 1 {
      FirstOctet(v / 256, n - 1);
      assert BigEndian(v, n)[0] == BigEndian(v / 256, n - 1)[0];
      DivDiv(v, Pow256(n - 2));
    }
  }

  lemma DivDiv(v: nat, p: nat)
    requires p > 0
    ensures v / 256 / p == v / (256 * p)
  {
    var q, r := v / 256, v % 256;
    assert v == 256 * q + r;
    assert q == p * (q / p) + q % p;
    assert v == 256 * p * (q / p) + (256 * (q % p) + r);
    DivModUnique(256 * p, q / p, 256 * (q % p) + r);
  }

  lemma Powers()
    ensures Pow256(1) == 0x100 && Pow256(2) == 0x1_0000 && Pow256(4) == 0x1_0000_0000
        && Pow256(8) == 0x1_0000_0000_0000_0000
    ensures Pow256(0) == 1 && Pow256(3) == 0x100_0000 && Pow256(7) == 0x100_0000_0000_0000
  {
    assert Pow256(2) == 256 * Pow256(1);
    assert Pow256(4) == 256 * 256 * Pow256(2);
    assert Pow256(6) == 256 * 256 * Pow256(4);
    assert Pow256(8) == 256 * Pow256(7) == 256 * 256 * Pow256(6);
  }

  lemma TagSurvives(v: varint)
    ensures var n := Length(v);
      && Tag(n) + v < Pow256(n) && (Tag(n) + v) % Span(n) == v
      && n == (var first := (Tag(n) + v) / Pow256(n - 1);
               if first < 64 then 1 else if first < 128 then 2 else if first < 192 then 4 else 8)
  {
    hide Pow256;
    Powers();
  }

  /** Every value comes back, with its length, whatever follows it. */
  lemma RoundTrip(v: varint, rest: bytes)
    ensures Decode(Encode(v) + rest) == Some((v, Length(v)))
  {
    hide BigEndian, FromBigEndian, Pow256;
    var n := Length(v);
    TagSurvives(v);
    BigEndianRoundTrip(Tag(n) + v, n);
    FirstOctet(Tag(n) + v, n);
    assert (Encode(v) + rest)[..n] == Encode(v);
    assert (Encode(v) + rest)[0] == Encode(v)[0];
  }

  lemma Stable(buf: bytes, more: bytes)
    requires Decode(buf).Some?
    ensures Decode(buf + more) == Decode(buf)
  {
    hide FromBigEndian;
    assert (buf + more)[0] == buf[0];
    var n := LengthFrom(buf[0]);
    assert (buf + more)[..n] == buf[..n];
  }

  /** The length written is the shortest one: no reading of the same value takes less. */
  lemma ShortestForm(buf: bytes)
    requires Decode(buf).Some?
    ensures Length(Decode(buf).value.0) <= Decode(buf).value.1
  {
    hide FromBigEndian;
  }

  function OctetAt(buf: bytes, i: nat): nat {
    if i < |buf| then buf[i] as nat else 0
  }

  lemma MoreSignificant(buf: bytes, n: nat)
    requires n < |buf|
    ensures FromBigEndian(buf[..n + 1]) == 256 * FromBigEndian(buf[..n]) + OctetAt(buf, n)
    ensures FromBigEndian(buf[..0]) == 0
  {
    assert buf[..n + 1][..n] == buf[..n];
  }

  /** The octets behind the first one as a number, `n` octets in all. */
  function Lower(buf: bytes, n: nat): nat {
    if n == 2 then OctetAt(buf, 1)
    else if n == 4 then 0x1_0000 * OctetAt(buf, 1) + 0x100 * OctetAt(buf, 2) + OctetAt(buf, 3)
    else if n == 8 then
      0x1_0000_0000_0000 * OctetAt(buf, 1) + 0x100_0000_0000 * OctetAt(buf, 2) + 0x1_0000_0000 * OctetAt(buf, 3)
      + 0x100_0000 * OctetAt(buf, 4) + 0x1_0000 * OctetAt(buf, 5) + 0x100 * OctetAt(buf, 6) + OctetAt(buf, 7)
    else 0
  }

  /** The weight of the first octet. */
  function Weight(n: nat): nat {
    if n == 2 then 0x100 else if n == 4 then 0x100_0000 else if n == 8 then 0x100_0000_0000_0000 else 1
  }

  lemma ValueOf(buf: bytes, n: nat)
    requires n <= |buf| && (n == 1 || n == 2 || n == 4 || n == 8)
    ensures FromBigEndian(buf[..n]) == Weight(n) * OctetAt(buf, 0) + Lower(buf, n)
  {
    hide FromBigEndian, OctetAt;
    MoreSignificant(buf, 0);
    if n >= 2 {
      MoreSignificant(buf, 1);
    }
    if n >= 4 {
      MoreSignificant(buf, 2);
      MoreSignificant(buf, 3);
    }
    if n == 8 {
      MoreSignificant(buf, 4);
      MoreSignificant(buf, 5);
      MoreSignificant(buf, 6);
      MoreSignificant(buf, 7);
    }
  }

  lemma DropTag(first: nat, n: nat, lower: nat)
    requires first < 256 && lower < Weight(n) && (n == 1 || n == 2 || n == 4 || n == 8)
    ensures (Weight(n) * first + lower) % Span(n) == Weight(n) * (first % 64) + lower
  {
    var tag := first / 64;
    assert first == 64 * tag + first % 64 && Span(n) == 64 * Weight(n);
    DivModUnique(Span(n), tag, Weight(n) * (first % 64) + lower);
  }

  /** What any octets read as (section 16 of RFC 9000), in the shortest form or not: the two high
      bits announce 1, 2, 4 or 8 octets, the others are the value, most significant first. */
  lemma ReadsAs(buf: bytes)
    requires buf != []
    ensures var tag, first := buf[0] as nat / 64, buf[0] as nat % 64;
      var n := if tag == 0 then 1 else if tag == 1 then 2 else if tag == 2 then 4 else 8;
      Decode(buf) == if |buf| < n then None else Some((Weight(n) * first + Lower(buf, n), n))
  {
    hide FromBigEndian, Span, Weight, Lower;
    var n := LengthFrom(buf[0]);
    if n <= |buf| {
      ValueOf(buf, n);
      LowerBound(buf, n);
      DropTag(buf[0] as nat, n, Lower(buf, n));
    }
  }

  lemma LowerBound(buf: bytes, n: nat)
    requires n == 1 || n == 2 || n == 4 || n == 8
    ensures Lower(buf, n) < Weight(n)
  {
  }

  /** The examples of Appendix A.1 of RFC 9000; the last is a longer form of 37. */
  lemma Examples()
    ensures Decode([0xc2, 0x19, 0x7c, 0x5e, 0xff, 0x14, 0xe8, 0x8c]) == Some((151288809941952652, 8))
    ensures Decode([0x9d, 0x7f, 0x3e, 0x7d]) == Some((494878333, 4)) && Decode([0x7b, 0xbd]) == Some((15293, 2))
    ensures Decode([0x25]) == Some((37, 1)) && Decode([0x40, 0x25]) == Some((37, 2))
  {
    hide Decode;
    ReadsAs([0xc2, 0x19, 0x7c, 0x5e, 0xff, 0x14, 0xe8, 0x8c]);
    ReadsAs([0x9d, 0x7f, 0x3e, 0x7d]);
    ReadsAs([0x7b, 0xbd]);
    ReadsAs([0x25]);
    ReadsAs([0x40, 0x25]);
  }

  // ---- The procedures of the source -------------------------------------------

  /** `encode`: refuses without touching the buffer when there is no room. */
  method EncodeAt(buf: array<byte>, start: nat, v: varint) returns (r: Option<nat>)
    requires start <= buf.Length
    modifies buf
    ensures WriteResult(old(buf[..]), buf[..], start, Encode(v), r)
    ensures r.None? ==> buf[..] == old(buf[..])
  {
    hide BigEndian, Tag;
    var len := Length(v);
    if buf.Length - start < len {
      return None;
    }
    r := CopyAt(buf, start, BigEndian(Tag(len) + v, len));
  }
}
