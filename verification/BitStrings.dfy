/** Bit strings, most significant bit first, and how octet strings spell them. */
module BitStrings {
  import opened Bytes

  type bits = seq<bool>

  function BitOf(b: bool): nat {
    if b then 1 else 0
  }

  function Value(s: bits): nat {
    if s == [] then 0 else 2 * Value(s[..|s| - 1]) + BitOf(s[|s| - 1])
  }

  /** The low `n` bits of `v`. */
  function ToBits(v: nat, n: nat): (r: bits)
    ensures |r| == n
  {
    if n == 0 then [] else ToBits(v / 2, n - 1) + [v % 2 == 1]
  }

  function Ones(n: nat): (r: bits)
    ensures |r| == n && forall i :: 0 <= i < n ==> r[i]
  {
    seq(n, i => true)
  }

  function Unpack(b: bytes): (r: bits)
    ensures |r| == 8 * |b|
  {
    if b == [] then [] else Unpack(b[..|b| - 1]) + ToBits(b[|b| - 1] as nat, 8)
  }

  lemma ValueBound(s: bits)
    ensures Value(s) < Pow2(|s|)
  {
  }

  lemma {:induction false} ValueConcat(a: bits, b: bits)
    ensures Value(a + b) == Value(a) * Pow2(|b|) + Value(b)
    decreases |b|
  {
    if b == [] {
      assert a + b == a;
    } else {
      var c := b[..|b| - 1];
      assert (a + b)[..|a + b| - 1] == a + c;
      ValueConcat(a, c);
      assert 2 * (Value(a) * Pow2(|c|)) == Value(a) * Pow2(|b|);
    }
  }

  /** Splitting a value into its leading and its trailing bits. */
  lemma ValueSplit(s: bits, k: nat)
    requires k <= |s|
    ensures Value(s[..k]) == Value(s) / Pow2(|s| - k)
    ensures Value(s[k..]) == Value(s) % Pow2(|s| - k)
    ensures Value(s) == Value(s[..k]) * Pow2(|s| - k) + Value(s[k..])
  {
    assert s == s[..k] + s[k..];
    ValueConcat(s[..k], s[k..]);
    ValueBound(s[k..]);
    DivModUnique(Pow2(|s| - k), Value(s[..k]), Value(s[k..]));
  }

  lemma HalfBound(v: nat, n: nat)
    requires n > 0 && v < Pow2(n)
    ensures 0 <= v / 2 < Pow2(n - 1)
  {
  }

  lemma ValueSnoc(before: bits, last: bool)
    ensures Value(before + [last]) == 2 * Value(before) + BitOf(last)
  {
    assert (before + [last])[..|before|] == before;
  }

  lemma ValueOfNothing()
    ensures Value([]) == 0 && Pow2(0) == 1
  {
  }

  lemma {:induction false} ValueToBits(v: nat, n: nat)
    requires v < Pow2(n)
    ensures Value(ToBits(v, n)) == v
  {
    hide Pow2, Value;
    if n == 0 {
      ValueOfNothing();
    } else {
      HalfBound(v, n);
      ValueToBits(v / 2, n - 1);
      ValueSnoc(ToBits(v / 2, n - 1), v % 2 == 1);
      assert v == 2 * (v / 2) + BitOf(v % 2 == 1);
    }
  }

  lemma LowBit(before: nat, v: nat, last: bool)
    requires v == 2 * before + BitOf(last)
    ensures v / 2 == before && (v % 2 == 1) == last
  {
  }

  lemma {:induction false} ToBitsValue(s: bits)
    ensures ToBits(Value(s), |s|) == s
  {
    if s != [] {
      var before, last := s[..|s| - 1], s[|s| - 1];
      ToBitsValue(before);
      LowBit(Value(before), Value(s), last);
      assert s == before + [last];
    }
  }

  lemma SameValue(a: bits, b: bits)
    requires |a| == |b|
    ensures Value(a) == Value(b) <==> a == b
  {
    ToBitsValue(a);
    ToBitsValue(b);
  }

  lemma {:induction false} UnpackConcat(a: bytes, b: bytes)
    ensures Unpack(a + b) == Unpack(a) + Unpack(b)
    decreases |b|
  {
    if b == [] {
      assert a + b == a;
    } else {
      assert (a + b)[..|a + b| - 1] == a + b[..|b| - 1];
      UnpackConcat(a, b[..|b| - 1]);
    }
  }

  lemma {:induction false} UnpackInjective(a: bytes, b: bytes)
    requires Unpack(a) == Unpack(b)
    ensures a == b
  {
    if a != [] {
      var i := |a| - 1;
      assert |Unpack(a)| == |Unpack(b)|;
      var u, w := Unpack(a), Unpack(b);
      assert u[..8 * i] == Unpack(a[..i]) && w[..8 * i] == Unpack(b[..i]);
      UnpackInjective(a[..i], b[..i]);
      assert u[8 * i..] == ToBits(a[i] as nat, 8) && w[8 * i..] == ToBits(b[i] as nat, 8);
      assert Pow2(8) == 256;
      ValueToBits(a[i] as nat, 8);
      ValueToBits(b[i] as nat, 8);
      assert a == a[..i] + [a[i]] && b == b[..i] + [b[i]];
    }
  }

  /** The octets that spell a whole number of octets. */
  function Pack(s: bits): (r: bytes)
    requires |s| % 8 == 0
    ensures 8 * |r| == |s|
  {
    if s == [] then []
    else
      ValueBound(s[|s| - 8..]);
      assert Pow2(8) == 256;
      Pack(s[..|s| - 8]) + [Value(s[|s| - 8..]) as byte]
  }

  lemma {:induction false} UnpackPack(s: bits)
    requires |s| % 8 == 0
    ensures Unpack(Pack(s)) == s
  {
    if s != [] {
      var n := |s| - 8;
      UnpackPack(s[..n]);
      ToBitsValue(s[n..]);
      var p := Pack(s);
      assert p[..|p| - 1] == Pack(s[..n]);
      assert s == s[..n] + s[n..];
    }
  }

  lemma {:induction false} OnesValue(n: nat)
    ensures Value(Ones(n)) == Pow2(n) - 1
  {
    if n > 0 {
      OnesValue(n - 1);
      assert Ones(n)[..n - 1] == Ones(n - 1);
    }
  }
}
