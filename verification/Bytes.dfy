/** Octets, the error values of the QPACK layer, and the powers of two that the
    bit-level code is phrased with. */
module Bytes {

  newtype byte = b: int | 0 <= b < 256

  type bytes = seq<byte>

  datatype Option<+T> = None | Some(value: T)

  datatype QpackError =
    | BufferTooShort
    | DecodeFailed
    | InvalidIndex(index: nat)
    | InvalidHuffman
    | CapacityExceeded
    | DynamicTableDisabled

  datatype Result<+T> = Ok(value: T) | Err(error: QpackError) {
    predicate IsFailure() {
      Err?
    }

    function PropagateFailure<U>(): Result<U>
      requires Err?
    {
      Err(error)
    }

    function Extract(): T
      requires Ok?
    {
      value
    }
  }

  /** `x | y` when the bits of the operands cannot overlap: `y` lies below bit `k`
      and `x` has no bit below `k`. */
  function DisjointOr(x: nat, y: nat, k: nat): nat
    requires x % Pow2(k) == 0 && y < Pow2(k)
  {
    x + y
  }

  /** A buffer after `code` has been written at `start`. */
  function Splice(buf: bytes, start: nat, code: bytes): (r: bytes)
    requires start + |code| <= |buf|
    ensures |r| == |buf|
  {
    buf[..start] + code + buf[start + |code|..]
  }

  /** Two writes in a row are one write of the concatenation. */
  lemma SpliceSplice(buf: bytes, start: nat, a: bytes, b: bytes)
    requires start + |a| + |b| <= |buf|
    ensures Splice(Splice(buf, start, a), start + |a|, b) == Splice(buf, start, a + b)
  {
    var once := Splice(buf, start, a);
    assert once[..start + |a|] == buf[..start] + a;
    assert once[start + |a| + |b|..] == buf[start + |a| + |b|..];
  }

  lemma SpliceSnoc(buf: bytes, start: nat, code: bytes, b: byte)
    requires start + |code| < |buf|
    ensures Splice(buf, start, code)[start + |code| := b] == Splice(buf, start, code + [b])
  {
  }

  lemma SpliceNothing(buf: bytes, start: nat)
    requires start <= |buf|
    ensures Splice(buf, start, []) == buf
  {
  }

  lemma SpliceKeeps(buf: bytes, start: nat, code: bytes)
    requires start + |code| <= |buf|
    ensures Splice(buf, start, code)[..start] == buf[..start]
  {
  }

  /** What a writer into a fixed buffer does: it writes the code and says how long it is,
      or says that there is no room. The octets before `start` never change. */
  ghost predicate WriteResult(before: bytes, after: bytes, start: nat, code: bytes, r: Option<nat>) {
    && |after| == |before| && start <= |before|
    && r == (if start + |code| <= |before| then Some(|code|) else None)
    && (r.Some? ==> after == Splice(before, start, code))
    && after[..start] == before[..start]
  }

  /** Two writers one after the other write the concatenation; the second is only called
      when the first had room. */
  lemma WriteBoth(a: bytes, b: bytes, c: bytes, start: nat, code1: bytes, code2: bytes, r1: Option<nat>,
                  r2: Option<nat>)
    requires WriteResult(a, b, start, code1, r1)
    requires r1.Some? ==> WriteResult(b, c, start + r1.value, code2, r2)
    requires r1.None? ==> r2.None? && c == b
    ensures WriteResult(a, c, start, code1 + code2,
                        if r1.Some? && r2.Some? then Some(r1.value + r2.value) else None)
  {
    if r1.Some? {
      assert b[..start + r1.value][..start] == b[..start];
      assert c[..start + r1.value][..start] == c[..start];
      if r2.Some? {
        SpliceSplice(a, start, code1, code2);
      }
    }
  }

  lemma WriteMore(before: bytes, after: bytes, start: nat, code: bytes, more: bytes)
    requires WriteResult(before, after, start, code, None)
    ensures WriteResult(before, after, start, code + more, None)
  {
  }

  lemma WriteNothing(before: bytes, start: nat)
    requires start <= |before|
    ensures WriteResult(before, before, start, [], Some(0))
  {
    SpliceNothing(before, start);
  }

  lemma WriteFits(before: bytes, after: bytes, start: nat, code: bytes, r: Option<nat>)
    requires WriteResult(before, after, start, code, r)
    ensures r.Some? ==> start + r.value <= |before|
  {
  }

  /** The optional length of two writes in a row. */
  function Both(a: Option<nat>, b: Option<nat>): Option<nat> {
    if a.Some? && b.Some? then Some(a.value + b.value) else None
  }

  /** Copies `s` to `start`, if there is room. */
  method CopyAt(buf: array<byte>, start: nat, s: bytes) returns (r: Option<nat>)
    requires start <= buf.Length
    modifies buf
    ensures WriteResult(old(buf[..]), buf[..], start, s, r)
  {
    if buf.Length < start + |s| {
      return None;
    }
    forall i | 0 <= i < |s| {
      buf[start + i] := s[i];
    }
    assert buf[..] == Splice(old(buf[..]), start, s);
    return Some(|s|);
  }

  function Pow2(n: nat): (p: nat)
    ensures p > 0
  {
    if n == 0 then 1 else 2 * Pow2(n - 1)
  }

  /** `x >> n` */
  function Shr(x: nat, n: nat): nat {
    assert x / Pow2(n) >= 0 by { DivNonNegative(x, Pow2(n)); }
    x / Pow2(n)
  }

  lemma DivNonNegative(x: nat, d: nat)
    requires d > 0
    ensures x / d >= 0
  {
  }

  /** Quotient and remainder of `d * q + r` by `d`. */
  lemma DivModUnique(d: nat, q: nat, r: nat)
    requires r < d
    ensures (d * q + r) / d == q && (d * q + r) % d == r
  {
    var x := d * q + r;
    assert x == d * (x / d) + x % d;
    MultipleBound(d, x / d - q);
    assert d * (x / d - q) == r - x % d;
  }

  lemma MultipleBound(d: nat, e: int)
    ensures e >= 1 ==> d * e >= d
    ensures e <= -1 ==> d * e + d <= 0
  {
  }

  lemma {:induction false} Pow2Add(a: nat, b: nat)
    ensures Pow2(a + b) == Pow2(a) * Pow2(b)
  {
    if a > 0 {
      Pow2Add(a - 1, b);
      assert Pow2(a + b) == 2 * Pow2(a - 1 + b);
      assert 2 * (Pow2(a - 1) * Pow2(b)) == (2 * Pow2(a - 1)) * Pow2(b);
    }
  }

  lemma {:induction false} Pow2Monotone(a: nat, b: nat)
    requires a <= b
    ensures Pow2(a) <= Pow2(b)
  {
    if a < b {
      Pow2Monotone(a, b - 1);
    }
  }

  lemma Pow2Values()
    ensures Pow2(8) == 256 && Pow2(24) == 0x100_0000 && Pow2(30) == 0x4000_0000 && Pow2(32) == 0x1_0000_0000
    ensures Pow2(56) == 0x100_0000_0000_0000 && Pow2(64) == 0x1_0000_0000_0000_0000
  {
    SmallPow2();
    hide Pow2;
    Pow2Add(8, 8);
    Pow2Add(16, 8);
    Pow2Add(24, 6);
    Pow2Add(24, 8);
    Pow2Add(32, 24);
    Pow2Add(32, 32);
  }

  lemma SmallPow2()
    ensures Pow2(6) == 64 && Pow2(8) == 256
  {
  }
}
