/** The Required Insert Count on the wire (section 4.5.1.1 of RFC 9204): it is sent modulo
    twice the number of entries a table can hold, and restored from the receiver's own
    insert count. */
module InsertCount {
  import opened Bytes
  import opened TableModel

  function MaxEntries(maxCapacity: nat): nat {
    maxCapacity / ENTRY_OVERHEAD
  }

  /** `encode_required_insert_count` */
  function EncodeCount(r: nat, maxCapacity: nat): nat {
    var entries := MaxEntries(maxCapacity);
    if r == 0 || entries == 0 then 0 else r % (2 * entries) + 1
  }

  /** `decode_required_insert_count` at a receiver that has made `inserts` insertions. */
  function DecodeCount(enc: nat, inserts: nat, maxCapacity: nat): Result<nat> {
    if enc == 0 then Ok(0)
    else
      var entries := MaxEntries(maxCapacity);
      if entries == 0 then Err(DecodeFailed)
      else
        var fullRange := 2 * entries;
        if enc > fullRange then Err(DecodeFailed)
        else
          var maxValue := inserts + entries;
          assert maxValue / fullRange * fullRange >= 0 by { WholeTurns(maxValue, fullRange); }
          var maxWrapped: nat := maxValue / fullRange * fullRange;
          var count := maxWrapped + enc - 1;
          if count > maxValue && count <= fullRange then Err(DecodeFailed)
          else
            var wrapped: nat := if count > maxValue then count - fullRange else count;
            if wrapped == 0 then Err(DecodeFailed) else Ok(wrapped)
  }

  lemma WholeTurns(x: nat, m: nat)
    requires m > 0
    ensures x / m * m >= 0
  {
    assert x / m * m == x - x % m;
    assert x % m <= x;
  }

  /** The counts a receiver can tell apart. */
  predicate InWindow(v: int, inserts: nat, entries: nat) {
    inserts - entries < v <= inserts + entries
  }

  predicate Congruent(v: int, enc: nat, entries: nat)
    requires entries > 0
  {
    (v - (enc - 1)) % (2 * entries) == 0
  }

  /** The member of the window that is congruent to `enc - 1`. */
  function WindowValue(enc: nat, inserts: nat, entries: nat): int
    requires entries > 0
  {
    inserts + entries - (inserts + entries - (enc - 1)) % (2 * entries)
  }

  lemma SmallMultiple(m: nat, k: int)
    requires m > 0
    ensures m * k < m ==> k <= 0
    ensures 0 - m < m * k ==> k >= 0
    ensures k == 0 ==> m * k == 0
  {
    MultipleBound(m, k);
  }

  lemma ModOf(m: nat, q: int, r: nat, x: int)
    requires r < m && x == m * q + r
    ensures x % m == r
  {
    assert x == m * (x / m) + x % m;
    assert m * (x / m - q) == r - x % m;
    SmallMultiple(m, x / m - q);
  }

  lemma WindowValueUnique(enc: nat, inserts: nat, entries: nat, v: int)
    requires entries > 0
    ensures InWindow(v, inserts, entries) && Congruent(v, enc, entries) <==> v == WindowValue(enc, inserts, entries)
  {
    var m, x := 2 * entries, inserts + entries - (enc - 1);
    var w := WindowValue(enc, inserts, entries);
    assert w - (enc - 1) == x - x % m == m * (x / m);
    ModOf(m, x / m, 0, w - (enc - 1));
    if InWindow(v, inserts, entries) && Congruent(v, enc, entries) {
      var y := v - (enc - 1);
      assert y == m * (y / m);
      assert v - w == m * (y / m) - m * (x / m) == m * (y / m - x / m);
      SmallMultiple(m, y / m - x / m);
    }
  }

  /** What the wrapping arithmetic computes: the window's member congruent to `enc - 1`
      when it is positive; anything else is an error. */
  lemma DecodeIsWindowValue(enc: nat, inserts: nat, maxCapacity: nat)
    requires 0 < enc <= 2 * MaxEntries(maxCapacity)
    ensures var v := WindowValue(enc, inserts, MaxEntries(maxCapacity));
      DecodeCount(enc, inserts, maxCapacity) == if v > 0 then Ok(v) else Err(DecodeFailed)
  {
    var entries := MaxEntries(maxCapacity);
    var m, top, e := 2 * entries, inserts + entries, enc - 1;
    assert top == m * (top / m) + top % m;
    DivNonNegative(top, m);
    var q, r: nat := top / m, top % m;
    WrapCases(m, q, r, e);
    DecodeCases(enc, inserts, maxCapacity, q, r, m * q);
  }

  lemma DecodeCases(enc: nat, inserts: nat, maxCapacity: nat, q: nat, r: nat, p: nat)
    requires 0 < enc <= 2 * MaxEntries(maxCapacity)
    requires var m, top := 2 * MaxEntries(maxCapacity), inserts + MaxEntries(maxCapacity);
      && q == top / m && p == q * m && top == p + r && r < m && (q == 0 ==> p == 0) && (q >= 1 ==> p >= m)
      && (top - (enc - 1)) % m == if enc - 1 <= r then r - (enc - 1) else r - (enc - 1) + m
    ensures var v := WindowValue(enc, inserts, MaxEntries(maxCapacity));
      DecodeCount(enc, inserts, maxCapacity) == if v > 0 then Ok(v) else Err(DecodeFailed)
  {
  }

  /** The remainder of `m * q + (r - e)` for two digits `r` and `e`. */
  lemma WrapCases(m: nat, q: nat, r: nat, e: nat)
    requires m > 0 && r < m && e < m
    ensures (m * q + (r - e)) % m == if e <= r then r - e else r - e + m
    ensures q >= 1 ==> m * q >= m
    ensures q == 0 ==> m * q == 0
  {
    if e <= r {
      ModOf(m, q, r - e, m * q + (r - e));
    } else {
      assert m * (q - 1) == m * q - m;
      ModOf(m, q - 1, r - e + m, m * q + (r - e));
    }
  }

  /** A count survives the wire exactly when it lies in the receiver's window. */
  lemma CountRoundTrip(r: nat, inserts: nat, maxCapacity: nat)
    requires r > 0 && MaxEntries(maxCapacity) > 0
    ensures DecodeCount(EncodeCount(r, maxCapacity), inserts, maxCapacity) == Ok(r)
       <==> InWindow(r, inserts, MaxEntries(maxCapacity))
  {
    var entries := MaxEntries(maxCapacity);
    var enc := EncodeCount(r, maxCapacity);
    DecodeIsWindowValue(enc, inserts, maxCapacity);
    WindowValueUnique(enc, inserts, entries, r);
    assert r == 2 * entries * (r / (2 * entries)) + r % (2 * entries);
    ModOf(2 * entries, r / (2 * entries), 0, r - (enc - 1));
  }

  /** Later insertions at the receiver do not change what a prefix means for as long as the
      count stays in the window. */
  lemma CountStable(enc: nat, inserts: nat, later: nat, r: nat, maxCapacity: nat)
    requires enc > 0 && DecodeCount(enc, inserts, maxCapacity) == Ok(r)
    ensures DecodeCount(enc, later, maxCapacity) == Ok(r) <==> InWindow(r, later, MaxEntries(maxCapacity))
  {
    DecodeIsWindowValue(enc, inserts, maxCapacity);
    DecodeIsWindowValue(enc, later, maxCapacity);
    WindowValueUnique(enc, inserts, MaxEntries(maxCapacity), r);
    WindowValueUnique(enc, later, MaxEntries(maxCapacity), r);
  }
}
