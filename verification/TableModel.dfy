/** The dynamic table (section 3.2 of RFC 9204) as a window on an append-only log: entry
    `a` of the log has absolute index `a`, and the live entries are those from `dropped`. */
module TableModel {
  import opened Bytes
  import opened Fields

  const ENTRY_OVERHEAD: nat := 32

  /** Entries below `limit` may not be evicted. */
  datatype Window = Window(log: seq<Field>, dropped: nat, capacity: nat, limit: nat)

  type Table = t: Window | t.dropped <= |t.log| witness Window([], 0, 0, 0)

  const EMPTY: Table := Window([], 0, 0, 0)

  function FieldSize(f: Field): nat {
    ENTRY_OVERHEAD + |f.name| + |f.value|
  }

  function SizeOf(fs: seq<Field>): nat {
    if fs == [] then 0 else FieldSize(fs[0]) + SizeOf(fs[1..])
  }

  function Size(t: Table): nat {
    SizeOf(t.log[t.dropped..])
  }

  function LiveCount(t: Table): nat {
    |t.log| - t.dropped
  }

  // ---- Operations ---------------------------------------------------------

  /** Drops oldest entries until `required` more octets fit, no entry is left, or the
      oldest one is protected. */
  function Evict(t: Table, required: nat): (r: Table)
    ensures r == t.(dropped := r.dropped) && t.dropped <= r.dropped
    decreases |t.log| - t.dropped
  {
    if Size(t) + required <= t.capacity || t.dropped == |t.log| || t.dropped < t.limit then t
    else Evict(t.(dropped := t.dropped + 1), required)
  }

  /** The new table and the absolute index of the new entry. */
  function Insert(t: Table, f: Field): (Table, Option<nat>) {
    if FieldSize(f) > t.capacity then (t, None)
    else
      var e := Evict(t, FieldSize(f));
      if Size(e) + FieldSize(f) > t.capacity then (e, None) else (e.(log := e.log + [f]), Some(|t.log|))
  }

  function SetCapacity(t: Table, capacity: nat): Table {
    Evict(t.(capacity := capacity), 0)
  }

  function SetLimit(t: Table, limit: nat): Table {
    t.(limit := limit)
  }

  function Clear(t: Table): Table {
    t.(dropped := |t.log|)
  }

  function ByAbsolute(t: Table, a: nat): Option<Field> {
    if t.dropped <= a < |t.log| then Some(t.log[a]) else None
  }

  /** Index 0 is the newest entry. */
  function ByEncoderRelative(t: Table, i: nat): Option<Field> {
    if i < LiveCount(t) then Some(t.log[|t.log| - 1 - i]) else None
  }

  function ByBaseRelative(t: Table, i: nat, base: nat): Option<Field> {
    if i >= base then None else ByAbsolute(t, base - i - 1)
  }

  function ByPostBase(t: Table, i: nat, base: nat): Option<Field> {
    ByAbsolute(t, base + i)
  }

  function Duplicate(t: Table, i: nat): (Table, Option<nat>) {
    var f := ByEncoderRelative(t, i);
    if f.None? then (t, None) else Insert(t, f.value)
  }

  function NewestFirst(t: Table): (r: seq<Field>)
    ensures |r| == LiveCount(t)
    ensures forall i :: 0 <= i < |r| ==> r[i] == t.log[|t.log| - 1 - i]
  {
    seq(LiveCount(t), i requires 0 <= i < LiveCount(t) => t.log[|t.log| - 1 - i])
  }

  /** Searches from the newest entry on; the answers are absolute indices. */
  function FindEntry(t: Table, f: Field): Match {
    var m := Find(NewestFirst(t), f);
    Match(FromNewest(t, m.exact), FromNewest(t, m.name))
  }

  function FromNewest(t: Table, i: Option<nat>): Option<nat> {
    if i.Some? && i.value < |t.log| then Some(|t.log| - 1 - i.value) else None
  }

  // ---- What a search finds ------------------------------------------------

  /** An exact match is live, equal to the field and the newest such entry; there is none
      exactly when no live entry is equal. The same goes for the name, unless an exact
      match stands in for it. */
  lemma FindEntryFinds(t: Table, f: Field)
    ensures var m := FindEntry(t, f);
      && (m.exact.Some? ==> t.dropped <= m.exact.value < |t.log| && t.log[m.exact.value] == f)
      && (forall a :: (if m.exact.Some? then m.exact.value + 1 else t.dropped) <= a < |t.log| ==> t.log[a] != f)
      && (m.exact.Some? ==> m.name == m.exact)
      && (m.name.Some? ==> t.dropped <= m.name.value < |t.log| && t.log[m.name.value].name == f.name)
      && (m.exact.None? ==>
            forall a :: (if m.name.Some? then m.name.value + 1 else t.dropped) <= a < |t.log|
                ==> t.log[a].name != f.name)
  {
    var r, n := NewestFirst(t), |t.log|;
    forall a | t.dropped <= a < n
      ensures t.log[a] == r[n - 1 - a]
    {
    }
  }

  /** All four ways to look an entry up agree on the log. */
  lemma LookupsAgree(t: Table, a: nat, base: nat)
    requires a < |t.log|
    ensures ByAbsolute(t, a) == ByEncoderRelative(t, |t.log| - 1 - a)
    ensures a < base ==> ByBaseRelative(t, base - 1 - a, base) == ByAbsolute(t, a)
    ensures base <= a ==> ByPostBase(t, a - base, base) == ByAbsolute(t, a)
    ensures ByAbsolute(t, a) == if a < t.dropped then None else Some(t.log[a])
  {
  }

  // ---- Sizes --------------------------------------------------------------

  lemma {:induction false} SizeOfConcat(a: seq<Field>, b: seq<Field>)
    ensures SizeOf(a + b) == SizeOf(a) + SizeOf(b)
  {
    if a == [] {
      assert a + b == b;
    } else {
      assert (a + b)[1..] == a[1..] + b;
      SizeOfConcat(a[1..], b);
    }
  }

  /** Every entry counts for at least 32 octets. */
  lemma {:induction false} OverheadBound(fs: seq<Field>)
    ensures ENTRY_OVERHEAD * |fs| <= SizeOf(fs)
  {
    if fs != [] {
      OverheadBound(fs[1..]);
    }
  }

  /** A table within its capacity holds at most `capacity / 32` entries. */
  lemma LiveCountBound(t: Table)
    requires Size(t) <= t.capacity
    ensures LiveCount(t) <= t.capacity / 32
  {
    OverheadBound(t.log[t.dropped..]);
  }

  lemma DropOldest(t: Table)
    requires t.dropped < |t.log|
    ensures Size(t) == FieldSize(t.log[t.dropped]) + Size(t.(dropped := t.dropped + 1))
  {
    assert t.log[t.dropped..][1..] == t.log[t.dropped + 1..];
  }

  lemma AppendSize(t: Table, f: Field)
    ensures Size(t.(log := t.log + [f])) == Size(t) + FieldSize(f)
  {
    assert (t.log + [f])[t.dropped..] == t.log[t.dropped..] + [f];
    SizeOfConcat(t.log[t.dropped..], [f]);
    assert [f][1..] == [];
  }

  // ---- Eviction -----------------------------------------------------------

  /** Eviction is blocked before the first removal or not at all, and it removes nothing
      that is protected. */
  lemma {:induction false} EvictBlockedOrFits(t: Table, required: nat)
    ensures t.dropped < t.limit ==> Evict(t, required) == t
    ensures t.limit <= t.dropped ==> Evict(t, required) == SetLimit(Evict(SetLimit(t, 0), required), t.limit)
    ensures t.limit <= t.dropped && required <= t.capacity ==> Size(Evict(t, required)) + required <= t.capacity
    ensures Size(t) + required <= t.capacity ==> Evict(t, required) == t
    decreases |t.log| - t.dropped
  {
    if Size(t) + required > t.capacity && t.limit <= t.dropped < |t.log| {
      EvictBlockedOrFits(t.(dropped := t.dropped + 1), required);
    }
  }

  predicate StopsAt(t: Table, required: nat, d: nat)
    requires d <= |t.log|
  {
    Size(t.(dropped := d)) + required <= t.capacity || d == |t.log| || d < t.limit
  }

  /** Eviction removes no more than it has to: it stops at the first place where the octets
      fit, nothing is left, or the oldest entry is protected. */
  lemma {:induction false} EvictIsLeast(t: Table, required: nat)
    ensures StopsAt(t, required, Evict(t, required).dropped)
    ensures forall d: nat :: t.dropped <= d < Evict(t, required).dropped ==> !StopsAt(t, required, d)
    decreases |t.log| - t.dropped
  {
    if !StopsAt(t, required, t.dropped) {
      var next := t.(dropped := t.dropped + 1);
      EvictIsLeast(next, required);
      forall d: nat | t.dropped <= d < Evict(t, required).dropped
        ensures !StopsAt(t, required, d)
      {
        assert d > t.dropped ==> !StopsAt(next, required, d);
      }
    }
  }

  /** A new capacity drops the oldest entries, and no more than it has to, until what is left fits;
      if the oldest is protected it drops nothing, and only then may the table be too large. */
  lemma SetCapacityIs(t: Table, capacity: nat)
    ensures var r := SetCapacity(t, capacity);
      && r == t.(capacity := capacity, dropped := r.dropped) && t.dropped <= r.dropped
      && (t.dropped < t.limit ==> r.dropped == t.dropped)
      && (Size(r) > capacity <==> t.dropped < t.limit && Size(t) > capacity)
      && (forall d: nat :: t.dropped <= d < r.dropped ==> Size(t.(dropped := d)) > capacity)
  {
    hide Size;
    var u := t.(capacity := capacity);
    EvictBlockedOrFits(u, 0);
    EvictIsLeast(u, 0);
    SizeIgnores(t, capacity);
    var r := Evict(u, 0);
    forall d: nat | t.dropped <= d < r.dropped
      ensures Size(t.(dropped := d)) > capacity
    {
      assert !StopsAt(u, 0, d);
      assert u.(dropped := d) == t.(capacity := capacity, dropped := d);
    }
  }

  lemma SizeIgnores(t: Table, capacity: nat)
    ensures forall d: nat :: d <= |t.log| ==> Size(t.(capacity := capacity, dropped := d)) == Size(t.(dropped := d))
    ensures Size(t.(capacity := capacity)) == Size(t)
  {
  }

  /** An insertion that fails leaves the table as it was. */
  lemma InsertAllOrNothing(t: Table, f: Field)
    ensures Insert(t, f).1.None? ==> Insert(t, f).0 == t
    ensures Insert(t, f).1.None? <==>
        FieldSize(f) > t.capacity || (t.dropped < t.limit && Size(t) + FieldSize(f) > t.capacity)
  {
    EvictBlockedOrFits(t, FieldSize(f));
  }

  /** What a successful insertion does, whatever is protected: it appends `f`, keeps the
      size within the capacity, and drops nothing below the limit. */
  lemma InsertAppends(t: Table, f: Field)
    requires Insert(t, f).1.Some?
    ensures var (r, i) := Insert(t, f);
      && i == Some(|t.log|) && r.log == t.log + [f]
      && r.capacity == t.capacity && r.limit == t.limit
      && t.dropped <= r.dropped <= |t.log|
      && Size(r) <= r.capacity
      && (t.dropped < t.limit ==> r.dropped == t.dropped)
  {
    EvictBlockedOrFits(t, FieldSize(f));
    AppendSize(Evict(t, FieldSize(f)), f);
  }

  /** A duplicate is the entry that the relative index names, appended once more, even when the
      original is evicted to make room; otherwise the table stays as it was. */
  lemma DuplicateIs(t: Table, i: nat)
    ensures var (r, index) := Duplicate(t, i);
      && (index.Some? <==>
            i < |t.log| - t.dropped
            && (t.limit <= t.dropped || Size(t) + FieldSize(t.log[|t.log| - 1 - i]) <= t.capacity)
            && FieldSize(t.log[|t.log| - 1 - i]) <= t.capacity)
      && (index.Some? ==> index == Some(|t.log|) && r.log == t.log + [t.log[|t.log| - 1 - i]] && Size(r) <= r.capacity)
      && (index.None? ==> r == t)
  {
    hide Size, Insert;
    var f := ByEncoderRelative(t, i);
    if f.Some? {
      InsertAllOrNothing(t, f.value);
      if Insert(t, f.value).1.Some? {
        InsertAppends(t, f.value);
      }
    }
  }

  /** Protection decides whether an insertion succeeds, never what it does: a peer that
      protects nothing and makes the same insertion ends up with the same entries. */
  lemma InsertIgnoresLimit(t: Table, f: Field)
    requires Insert(t, f).1.Some?
    ensures Insert(SetLimit(t, 0), f) == (SetLimit(Insert(t, f).0, 0), Insert(t, f).1)
  {
    EvictBlockedOrFits(t, FieldSize(f));
    EvictBlockedOrFits(SetLimit(t, 0), FieldSize(f));
  }
}
