/** Prefix integers (section 5.1 of RFC 7541), as `qpack/integer.rs` writes and reads
    them: the prefix of the first octet, then little-endian groups of seven bits. */
module PrefixInteger {
  import opened Bytes

  /** The largest value a reader accepts, 2^62 - 1. */
  const MAX_VALUE: nat := 0x3FFF_FFFF_FFFF_FFFF

  const U64_MODULUS: nat := 0x1_0000_0000_0000_0000

  type PrefixBits = n: nat | 1 <= n <= 8 witness 1

  function MaxPrefix(bits: PrefixBits): nat {
    Pow2(bits) - 1
  }

  /** The flag bits that may stand above a prefix of `bits` bits. */
  predicate IsFlag(flag: nat, bits: PrefixBits) {
    flag < 256 && flag % Pow2(bits) == 0
  }

  lemma FlagFits(flag: nat, v: nat, bits: PrefixBits)
    requires IsFlag(flag, bits) && v < Pow2(bits)
    ensures flag + v < 256
    ensures (flag + v) % Pow2(bits) == v
    ensures (flag + v) / Pow2(bits) == flag / Pow2(bits)
  {
    hide Pow2;
    Pow2Add(bits, 8 - bits);
    Pow2Values();
    FlagFitsAt(flag, v, Pow2(bits), Pow2(8 - bits));
  }

  lemma FlagFitsAt(flag: nat, v: nat, p: nat, q: nat)
    requires p * q == 256 && flag < 256 && p > 0 && flag % p == 0 && v < p
    ensures flag + v < 256 && (flag + v) % p == v && (flag + v) / p == flag / p
  {
    var k := flag / p;
    assert flag == p * k;
    DivModUnique(p, k, v);
    assert p * (q - k) == 256 - flag;
    MultipleBound(p, q - k);
  }

  // ---- Writing ------------------------------------------------------------

  /** The groups that follow a saturated prefix. */
  function EncodeGroups(v: nat): (r: bytes)
    ensures |r| >= 1
  {
    if v < 128 then [v as byte] else [(128 + v % 128) as byte] + EncodeGroups(v / 128)
  }

  function Encode(v: nat, bits: PrefixBits, flag: nat): (r: bytes)
    requires IsFlag(flag, bits)
    ensures |r| >= 1
    ensures r[0] as nat / Pow2(bits) == flag / Pow2(bits)
  {
    FlagFits(flag, if v < MaxPrefix(bits) then v else MaxPrefix(bits), bits);
    if v < MaxPrefix(bits) then
      [DisjointOr(flag, v, bits) as byte]
    else
      [DisjointOr(flag, MaxPrefix(bits), bits) as byte] + EncodeGroups(v - MaxPrefix(bits))
  }

  /** What groups amount to: seven bits each, the first the least significant. */
  function GroupsValue(groups: bytes): nat {
    if groups == [] then 0 else groups[0] as nat % 128 + 128 * GroupsValue(groups[1..])
  }

  lemma {:induction false} GroupsLayout(v: nat)
    ensures var g := EncodeGroups(v);
      && GroupsValue(g) == v
      && g[|g| - 1] < 128 && (forall i :: 0 <= i < |g| - 1 ==> g[i] >= 128)
    decreases v
  {
    if v >= 128 {
      GroupsLayout(v / 128);
      FirstGroup(v, v / 128, EncodeGroups(v / 128));
    } else {
      assert EncodeGroups(v)[1..] == [];
    }
  }

  lemma FirstGroup(v: nat, w: nat, rest: bytes)
    requires v >= 128 && w == v / 128 && |rest| >= 1 && GroupsValue(rest) == w
    requires rest[|rest| - 1] < 128 && (forall i :: 0 <= i < |rest| - 1 ==> rest[i] >= 128)
    ensures var g := [(128 + v % 128) as byte] + rest;
      && GroupsValue(g) == v
      && g[|g| - 1] < 128 && (forall i :: 0 <= i < |g| - 1 ==> g[i] >= 128)
  {
    var first := (128 + v % 128) as byte;
    var g := [first] + rest;
    assert g[1..] == rest && g[0] == first && first as nat % 128 == v % 128;
    assert v == v % 128 + 128 * w;
  }

  /** The layout of section 5.1 of RFC 7541: a value below the largest prefix is the prefix;
      others saturate it and continue in groups, all but the last marked by their high bit. */
  lemma IntegerLayout(v: nat, bits: PrefixBits, flag: nat)
    requires IsFlag(flag, bits)
    ensures var r := Encode(v, bits, flag);
      if v < Pow2(bits) - 1 then |r| == 1 && r[0] as nat == flag + v
      else
        && |r| >= 2 && r[0] as nat == flag + Pow2(bits) - 1
        && v == Pow2(bits) - 1 + GroupsValue(r[1..])
        && r[|r| - 1] < 128 && (forall i :: 1 <= i < |r| - 1 ==> r[i] >= 128)
  {
    hide Pow2, EncodeGroups, GroupsValue;
    FlagFits(flag, if v < MaxPrefix(bits) then v else MaxPrefix(bits), bits);
    if v >= MaxPrefix(bits) {
      var r, g := Encode(v, bits, flag), EncodeGroups(v - MaxPrefix(bits));
      GroupsLayout(v - MaxPrefix(bits));
      assert r[1..] == g;
      assert forall i :: 1 <= i < |r| ==> r[i] == g[i - 1];
    }
  }

  /** The examples of Appendix C.1 of RFC 7541. */
  lemma IntegerExamples()
    ensures IsFlag(0, 5) && IsFlag(0, 8)
    ensures Encode(10, 5, 0) == [0x0a] && Encode(1337, 5, 0) == [0x1f, 0x9a, 0x0a] && Encode(42, 8, 0) == [0x2a]
  {
    assert Pow2(5) == 32 && Pow2(8) == 256;
    assert EncodeGroups(10) == [0x0a] && EncodeGroups(1306) == [0x9a, 0x0a];
  }

  // ---- Reading ------------------------------------------------------------

  /** Reads the groups from the `k`-th on; the ninth group must be the last one. */
  function DecodeGroups(data: bytes, k: nat): (r: Result<(nat, nat)>)
    ensures r.Ok? ==> 1 <= r.value.1 <= |data|
    ensures r.Err? ==> r.error == BufferTooShort || r.error == DecodeFailed
    decreases |data|
  {
    if data == [] then Err(BufferTooShort)
    else if data[0] < 128 then Ok((data[0] as nat, 1))
    else if k >= 8 then Err(DecodeFailed)
    else
      var (v, n) :- DecodeGroups(data[1..], k + 1);
      Ok((data[0] as nat - 128 + 128 * v, n + 1))
  }

  /** The value in the low `bits` bits of an octet. */
  function PrefixOf(b: byte, bits: PrefixBits): (r: nat)
    ensures r <= b as nat
  {
    ModAtMost(b as nat, Pow2(bits));
    b as nat % Pow2(bits)
  }

  lemma ModAtMost(x: nat, m: nat)
    requires m > 0
    ensures 0 <= x % m <= x
  {
  }

  function Decode(data: bytes, bits: PrefixBits): (r: Result<(nat, nat)>)
    ensures r.Ok? ==> 1 <= r.value.1 <= |data| && r.value.0 <= MAX_VALUE
    ensures r.Err? ==> r.error == BufferTooShort || r.error == DecodeFailed
  {
    if data == [] then Err(BufferTooShort)
    else
      var prefix := PrefixOf(data[0], bits);
      if prefix < MaxPrefix(bits) then
        Ok((prefix, 1))
      else
        var (v, n) :- DecodeGroups(data[1..], 0);
        if prefix + v > MAX_VALUE then Err(DecodeFailed) else Ok((prefix + v, n + 1))
  }

  // ---- Round trip ---------------------------------------------------------

  /** Upper bound (exclusive) on what can be written in the groups `k`..8. */
  function GroupSpan(k: nat): nat
    requires k <= 9
    decreases 9 - k
  {
    if k == 9 then 1 else 128 * GroupSpan(k + 1)
  }

  lemma {:induction false} GroupsRoundTrip(v: nat, k: nat, rest: bytes)
    requires k <= 8
    ensures DecodeGroups(EncodeGroups(v) + rest, k)
         == if v < GroupSpan(k) then Ok((v, |EncodeGroups(v)|)) else Err(DecodeFailed)
    decreases v
  {
    var data := EncodeGroups(v) + rest;
    if v < 128 {
      assert GroupSpan(k) >= 128 by { SpanPositive(k); }
      assert data[0] == v as byte;
    } else {
      assert data[0] == (128 + v % 128) as byte;
      assert data[1..] == EncodeGroups(v / 128) + rest;
      if k < 8 {
        GroupsRoundTrip(v / 128, k + 1, rest);
        assert v == v % 128 + 128 * (v / 128);
        assert v < 128 * GroupSpan(k + 1) <==> v / 128 < GroupSpan(k + 1);
      } else {
        assert GroupSpan(8) == 128;
      }
    }
  }

  lemma SpanPositive(k: nat)
    requires k <= 8
    ensures GroupSpan(k) >= 128
    decreases 9 - k
  {
    if k < 8 {
      SpanPositive(k + 1);
    }
  }

  lemma SpanOfAllGroups()
    ensures GroupSpan(0) == 0x8000_0000_0000_0000
  {
    assert GroupSpan(6) == 128 * 128 * 128;
    assert GroupSpan(3) == 128 * 128 * 128 * GroupSpan(6);
  }

  /** What a reader makes of every 64-bit value a writer can emit: exactly the values up
      to 2^62 - 1 come back, all larger ones are refused. */
  lemma RoundTrip(v: nat, bits: PrefixBits, flag: nat, rest: bytes)
    requires IsFlag(flag, bits) && v < U64_MODULUS
    ensures Decode(Encode(v, bits, flag) + rest, bits)
         == if v <= MAX_VALUE then Ok((v, |Encode(v, bits, flag)|)) else Err(DecodeFailed)
  {
    hide Pow2;
    var data := Encode(v, bits, flag) + rest;
    FlagFits(flag, if v < MaxPrefix(bits) then v else MaxPrefix(bits), bits);
    SmallPrefix(bits);
    if v >= MaxPrefix(bits) {
      assert data[1..] == EncodeGroups(v - MaxPrefix(bits)) + rest;
      GroupsRoundTrip(v - MaxPrefix(bits), 0, rest);
      SpanOfAllGroups();
    }
  }

  lemma SmallPrefix(bits: PrefixBits)
    ensures MaxPrefix(bits) < 256
  {
    Pow2Monotone(bits, 8);
    Pow2Values();
  }

  /** A run of groups: all but the last are marked as continued. */
  predicate Terminated(groups: bytes) {
    && groups != [] && groups[|groups| - 1] < 128
    && forall i :: 0 <= i < |groups| - 1 ==> groups[i] >= 128
  }

  /** Any run of groups is read for what it amounts to, in the shortest form or not, up to the
      ninth group; a longer run is refused. */
  lemma {:induction false} AnyGroups(groups: bytes, k: nat, rest: bytes)
    requires Terminated(groups) && k <= 8
    ensures DecodeGroups(groups + rest, k)
         == if k + |groups| <= 9 then Ok((GroupsValue(groups), |groups|)) else Err(DecodeFailed)
    decreases |groups|
  {
    var data := groups + rest;
    assert data[0] == groups[0];
    if |groups| == 1 {
      assert groups[1..] == [];
    } else if k < 8 {
      assert data[1..] == groups[1..] + rest;
      AnyGroups(groups[1..], k + 1, rest);
    }
  }

  /** What a reader makes of any integer whose groups are all there. */
  lemma AnyInteger(first: byte, bits: PrefixBits, groups: bytes, rest: bytes)
    requires Terminated(groups)
    ensures var prefix, v := first as nat % Pow2(bits), Pow2(bits) - 1 + GroupsValue(groups);
      && (prefix < Pow2(bits) - 1 ==> Decode([first] + rest, bits) == Ok((prefix, 1)))
      && (prefix == Pow2(bits) - 1 ==>
            Decode([first] + groups + rest, bits)
            == if |groups| <= 9 && v <= MAX_VALUE then Ok((v, 1 + |groups|)) else Err(DecodeFailed))
  {
    hide Pow2;
    assert ([first] + groups + rest)[1..] == groups + rest;
    AnyGroups(groups, 0, rest);
  }

  /** A reader waits for more exactly when the last group is still to come. */
  lemma {:induction false} GroupsWait(data: bytes, k: nat)
    ensures DecodeGroups(data, k) == Err(BufferTooShort) <==>
      (forall i :: 0 <= i < |data| ==> data[i] >= 128) && |data| < if k < 9 then 9 - k else 1
    decreases |data|
  {
    if data != [] && data[0] >= 128 && k < 8 {
      GroupsWait(data[1..], k + 1);
      assert forall i :: 1 <= i < |data| ==> data[i] == data[1..][i - 1];
      if forall i :: 0 <= i < |data| ==> data[i] >= 128 {
        forall i | 0 <= i < |data[1..]|
          ensures data[1..][i] >= 128
        {
          assert data[1..][i] == data[i + 1];
        }
      }
    }
  }

  /** More input never changes an answer that was already reached. */
  lemma {:induction false} GroupsStable(data: bytes, k: nat, more: bytes)
    requires DecodeGroups(data, k) != Err(BufferTooShort)
    ensures DecodeGroups(data + more, k) == DecodeGroups(data, k)
    decreases |data|
  {
    if data != [] && data[0] >= 128 && k < 8 {
      assert (data + more)[1..] == data[1..] + more;
      GroupsStable(data[1..], k + 1, more);
    }
  }

  lemma Stable(data: bytes, bits: PrefixBits, more: bytes)
    requires Decode(data, bits) != Err(BufferTooShort)
    ensures Decode(data + more, bits) == Decode(data, bits)
  {
    if data != [] && PrefixOf(data[0], bits) >= MaxPrefix(bits) {
      assert (data + more)[1..] == data[1..] + more;
      GroupsStable(data[1..], 0, more);
    }
  }

  // ---- The loops of the source --------------------------------------------

  /** `encode_integer_to_vec`: appends to a growable buffer. */
  method EncodeToVec(buf: bytes, v: nat, bits: PrefixBits, flag: nat) returns (out: bytes)
    requires IsFlag(flag, bits)
    ensures out == buf + Encode(v, bits, flag)
  {
    FlagFits(flag, if v < MaxPrefix(bits) then v else MaxPrefix(bits), bits);
    if v < MaxPrefix(bits) {
      return buf + [DisjointOr(flag, v, bits) as byte];
    }
    out := buf + [DisjointOr(flag, MaxPrefix(bits), bits) as byte];
    var remaining: nat := v - MaxPrefix(bits);
    ghost var target := out + EncodeGroups(remaining);
    while remaining >= 128
      invariant out + EncodeGroups(remaining) == target
    {
      out := out + [(128 + remaining % 128) as byte];
      remaining := remaining / 128;
    }
    out := out + [remaining as byte];
  }

  /** `encode_integer`: writes at `start` of a fixed buffer, or fails when the encoding
      does not fit. Nothing outside the written range changes. */
  method EncodeAt(buf: array<byte>, start: nat, v: nat, bits: PrefixBits, flag: nat) returns (r: Option<nat>)
    requires IsFlag(flag, bits) && start <= buf.Length
    modifies buf
    ensures r == if start + |Encode(v, bits, flag)| <= buf.Length then Some(|Encode(v, bits, flag)|) else None
    ensures r.Some? ==> buf[..] == Splice(old(buf[..]), start, Encode(v, bits, flag))
    ensures buf[..start] == old(buf[..start])
  {
    FlagFits(flag, if v < MaxPrefix(bits) then v else MaxPrefix(bits), bits);
    if start == buf.Length {
      return None;
    }
    if v < MaxPrefix(bits) {
      buf[start] := DisjointOr(flag, v, bits) as byte;
      return Some(1);
    }
    ghost var pre, first := buf[..], DisjointOr(flag, MaxPrefix(bits), bits) as byte;
    buf[start] := DisjointOr(flag, MaxPrefix(bits), bits) as byte;
    assert buf[..] == Splice(pre, start, [first]);
    var n := EncodeGroupsAt(buf, start + 1, v - MaxPrefix(bits));
    assert buf[..start] == buf[..start + 1][..start];
    if n.None? {
      return None;
    }
    SpliceSplice(pre, start, [first], EncodeGroups(v - MaxPrefix(bits)));
    return Some(1 + n.value);
  }

  method EncodeGroupsAt(buf: array<byte>, start: nat, v: nat) returns (r: Option<nat>)
    requires start <= buf.Length
    modifies buf
    ensures r == if start + |EncodeGroups(v)| <= buf.Length then Some(|EncodeGroups(v)|) else None
    ensures r.Some? ==> buf[..] == Splice(old(buf[..]), start, EncodeGroups(v))
    ensures buf[..start] == old(buf[..start])
  {
    hide Splice;
    var offset, remaining := 0, v;
    ghost var pre, soFar := buf[..], [];
    SpliceNothing(pre, start);
    while remaining >= 128
      invariant offset == |soFar| && start + offset <= buf.Length
      invariant EncodeGroups(v) == soFar + EncodeGroups(remaining)
      invariant buf[..] == Splice(pre, start, soFar)
      decreases remaining
    {
      SpliceKeeps(pre, start, soFar);
      if start + offset >= buf.Length {
        assert buf[..start] == buf[..][..start];
        return None;
      }
      ghost var before, octet := soFar, (128 + remaining % 128) as byte;
      buf[start + offset] := (128 + remaining % 128) as byte;
      soFar := soFar + [octet];
      NextGroup(before, octet, EncodeGroups(remaining / 128));
      SpliceSnoc(pre, start, before, octet);
      remaining := remaining / 128;
      offset := offset + 1;
    }
    SpliceKeeps(pre, start, soFar);
    assert buf[..start] == buf[..][..start];
    if start + offset >= buf.Length {
      return None;
    }
    buf[start + offset] := remaining as byte;
    SpliceSnoc(pre, start, soFar, remaining as byte);
    SpliceKeeps(pre, start, soFar + [remaining as byte]);
    assert buf[..start] == buf[..][..start];
    return Some(offset + 1);
  }

  lemma NextGroup(a: bytes, b: byte, c: bytes)
    ensures a + ([b] + c) == a + [b] + c
  {
  }

  /** The answer for a whole run of groups, given the answer for its tail and what the
      groups before it have contributed. */
  function Carry(r: Result<(nat, nat)>, value: nat, weight: nat, offset: nat): Result<(nat, nat)> {
    if r.Ok? then Ok((value + weight * r.value.0, offset + r.value.1)) else r
  }

  lemma CarryNumbers(w: nat, b: nat, v: nat)
    requires 128 <= b < 256
    ensures w * (b - 128 + 128 * v) == b % 128 * w + w * 128 * v
  {
    assert b % 128 == b - 128;
    assert w * (b - 128 + 128 * v) == w * (b - 128) + w * (128 * v);
  }

  /** A group that is not the last contributes its seven bits and passes the rest on. */
  lemma CarryMore(b: nat, v: nat, n: nat, value: nat, weight: nat, offset: nat)
    requires 128 <= b < 256
    ensures Carry(Ok((b - 128 + 128 * v, n + 1)), value, weight, offset)
         == Carry(Ok((v, n)), value + b % 128 * weight, weight * 128, offset + 1)
  {
    CarryNumbers(weight, b, v);
  }

  lemma CarryLast(b: nat, value: nat, weight: nat, offset: nat)
    requires b < 128
    ensures Carry(Ok((b, 1)), value, weight, offset) == Ok((value + b % 128 * weight, offset + 1))
  {
    assert b % 128 == b;
    assert weight * b == b * weight;
  }

  lemma CarryStep(data: bytes, k: nat, value: nat, weight: nat, offset: nat)
    requires data != []
    ensures Carry(DecodeGroups(data, k), value, weight, offset)
         == if data[0] < 128 then Ok((value + data[0] as nat % 128 * weight, offset + 1))
            else if k >= 8 then Err(DecodeFailed)
            else Carry(DecodeGroups(data[1..], k + 1), value + data[0] as nat % 128 * weight, weight * 128, offset + 1)
  {
    hide Carry;
    var rest := DecodeGroups(data[1..], k + 1);
    if data[0] < 128 {
      CarryLast(data[0] as nat, value, weight, offset);
    } else if k >= 8 {
      CarryErr(DecodeFailed, value, weight, offset);
    } else if rest.Err? {
      CarryErr(rest.error, value, weight, offset);
      CarryErr(rest.error, value + data[0] as nat % 128 * weight, weight * 128, offset + 1);
    } else {
      CarryMore(data[0] as nat, rest.value.0, rest.value.1, value, weight, offset);
    }
  }

  lemma CarryErr(error: QpackError, value: nat, weight: nat, offset: nat)
    ensures Carry(Err(error), value, weight, offset) == Err(error)
  {
  }

  /** `decode_integer`: the accumulating loop with its shift guard. */
  method DecodeLoop(data: bytes, bits: PrefixBits) returns (r: Result<(nat, nat)>)
    ensures r == Decode(data, bits)
  {
    if data == [] {
      return Err(BufferTooShort);
    }
    var prefix := PrefixOf(data[0], bits);
    if prefix < MaxPrefix(bits) {
      return Ok((prefix, 1));
    }
    var value := prefix;
    var group := 0;  // the shift is 7 * group
    var weight := 1; // 2^shift
    var offset := 1;
    while true
      invariant 1 <= offset <= |data| && 0 <= group <= 8 && weight >= 1
      invariant value >= prefix
      invariant DecodeGroups(data[1..], 0)
             == Carry(DecodeGroups(data[offset..], group), value - prefix, weight, offset - 1)
      decreases |data| - offset
    {
      if offset >= |data| {
        return Err(BufferTooShort);
      }
      var b := data[offset] as nat;
      assert data[offset..][1..] == data[offset + 1..];
      CarryStep(data[offset..], group, value - prefix, weight, offset - 1);
      value := value + (b % 128) * weight;
      offset := offset + 1;
      if b < 128 {
        break;
      }
      group := group + 1;
      if group > 8 {
        return Err(DecodeFailed);
      }
      weight := weight * 128;
    }
    if value > MAX_VALUE {
      return Err(DecodeFailed);
    }
    return Ok((value, offset));
  }

  /** `encoded_integer_len`: the length is computed without writing anything. */
  method EncodedLen(v: nat, bits: PrefixBits) returns (len: nat)
    ensures forall flag :: IsFlag(flag, bits) ==> len == |Encode(v, bits, flag)|
  {
    if v < MaxPrefix(bits) {
      return 1;
    }
    len := 1;
    var remaining: nat := v - MaxPrefix(bits);
    ghost var total := |EncodeGroups(remaining)|;
    while remaining >= 128
      invariant len >= 1 && len - 1 + |EncodeGroups(remaining)| == total
    {
      remaining := remaining / 128;
      len := len + 1;
    }
    len := len + 1;
  }
}
