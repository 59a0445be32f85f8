/** The mutable table of `qpack/dynamic_table.rs`: a queue of entries, newest first, with
    its counters. Every operation is proved against the window on the log. */
module DynamicTable {
  import opened Bytes
  import opened Fields
  import opened TableModel

  datatype Entry = Entry(field: Field, absoluteIndex: nat)

  /** The queue that a window stands for. */
  function Queue(t: Table): (r: seq<Entry>)
    ensures |r| == LiveCount(t)
    ensures forall i :: 0 <= i < |r| ==> r[i] == Entry(t.log[|t.log| - 1 - i], |t.log| - 1 - i)
  {
    seq(LiveCount(t), i requires 0 <= i < LiveCount(t) => Entry(t.log[|t.log| - 1 - i], |t.log| - 1 - i))
  }

  lemma QueueDropOldest(t: Table)
    requires t.dropped < |t.log|
    ensures Queue(t.(dropped := t.dropped + 1)) == Queue(t)[..LiveCount(t) - 1]
  {
  }

  lemma QueuePushNewest(t: Table, f: Field)
    ensures Queue(t.(log := t.log + [f])) == [Entry(f, |t.log|)] + Queue(t)
  {
  }

  class DynamicTable {
    var entries: seq<Entry>
    var maxCapacity: nat
    var currentSize: nat
    var insertCount: nat
    var droppedCount: nat
    var evictionLimit: nat
    /** Every field ever inserted. */
    ghost var log: seq<Field>

    ghost predicate Valid()
      reads this
    {
      && insertCount == |log|
      && droppedCount <= |log|
      && entries == Queue(Window(log, droppedCount, maxCapacity, evictionLimit))
      && currentSize == SizeOf(log[droppedCount..])
    }

    ghost function Value(): Table
      requires Valid()
      reads this
    {
      Window(log, droppedCount, maxCapacity, evictionLimit)
    }

    constructor ()
      ensures Valid() && Value() == EMPTY
    {
      entries, maxCapacity, currentSize, insertCount, droppedCount, evictionLimit := [], 0, 0, 0, 0, 0;
      log := [];
    }

    method SetEvictionLimit(limit: nat)
      requires Valid()
      modifies this
      ensures Valid() && Value() == SetLimit(old(Value()), limit)
    {
      evictionLimit := limit;
    }

    method SetCapacity(capacity: nat)
      requires Valid()
      modifies this
      ensures Valid() && Value() == TableModel.SetCapacity(old(Value()), capacity)
    {
      maxCapacity := capacity;
      EvictToFit(0);
    }

    method Insert(f: Field) returns (index: Option<nat>)
      requires Valid()
      modifies this
      ensures Valid() && (Value(), index) == TableModel.Insert(old(Value()), f)
      ensures index.None? ==> Value() == old(Value())
    {
      ghost var t := Value();
      InsertAllOrNothing(t, f);
      var size := FieldSize(f);
      if size > maxCapacity {
        return None;
      }
      EvictToFit(size);
      if currentSize + size > maxCapacity {
        return None;
      }
      Push(f);
      return Some(insertCount - 1);
    }

    method Push(f: Field)
      requires Valid()
      modifies this
      ensures Valid() && Value() == old(Value().(log := log + [f]))
    {
      AppendSize(Value(), f);
      QueuePushNewest(Value(), f);
      entries := [Entry(f, insertCount)] + entries;
      currentSize := currentSize + FieldSize(f);
      insertCount := insertCount + 1;
      log := log + [f];
    }

    method Duplicate(relativeIndex: nat) returns (index: Option<nat>)
      requires Valid()
      modifies this
      ensures Valid() && (Value(), index) == TableModel.Duplicate(old(Value()), relativeIndex)
    {
      var f := GetByRelativeIndexEncoder(relativeIndex);
      if f.None? {
        return None;
      }
      index := Insert(f.value);
    }

    method EvictToFit(required: nat)
      requires Valid()
      modifies this
      ensures Valid() && Value() == Evict(old(Value()), required)
    {
      ghost var goal := Evict(Value(), required);
      while currentSize + required > maxCapacity
        invariant Valid() && Evict(Value(), required) == goal
        decreases |entries|
      {
        if |entries| == 0 || entries[|entries| - 1].absoluteIndex < evictionLimit {
          break;
        }
        PopOldest();
      }
    }

    method PopOldest()
      requires Valid() && |entries| > 0
      modifies this
      ensures Valid() && Value() == old(Value().(dropped := droppedCount + 1))
      ensures |entries| == old(|entries|) - 1
    {
      DropOldest(Value());
      QueueDropOldest(Value());
      currentSize := currentSize - FieldSize(entries[|entries| - 1].field);
      entries := entries[..|entries| - 1];
      droppedCount := droppedCount + 1;
    }

    method Clear()
      requires Valid()
      modifies this
      ensures Valid() && Value() == TableModel.Clear(old(Value()))
    {
      droppedCount := droppedCount + |entries|;
      entries, currentSize := [], 0;
    }

    method GetByAbsoluteIndex(a: nat) returns (r: Option<Field>)
      requires Valid()
      ensures r == ByAbsolute(Value(), a)
    {
      if a < droppedCount || a >= insertCount {
        return None;
      }
      var offset := insertCount - 1 - a;
      return if offset < |entries| then Some(entries[offset].field) else None;
    }

    method GetByRelativeIndexEncoder(i: nat) returns (r: Option<Field>)
      requires Valid()
      ensures r == ByEncoderRelative(Value(), i)
    {
      return if i < |entries| then Some(entries[i].field) else None;
    }

    method GetByRelativeIndexRepr(i: nat, base: nat) returns (r: Option<Field>)
      requires Valid()
      ensures r == ByBaseRelative(Value(), i, base)
    {
      if i >= base {
        return None;
      }
      r := GetByAbsoluteIndex(base - i - 1);
    }

    method GetByPostBaseIndex(i: nat, base: nat) returns (r: Option<Field>)
      requires Valid()
      ensures r == ByPostBase(Value(), i, base)
    {
      r := GetByAbsoluteIndex(base + i);
    }

    /** `find_entry`: an exact match ends the search, the first name match is kept. */
    method FindEntry(f: Field) returns (m: Match)
      requires Valid()
      ensures m == TableModel.FindEntry(Value(), f)
    {
      hide Queue, NewestFirst;
      ghost var newest := NewestFirst(Value());
      var nameMatch: Option<nat> := None;
      for i := 0 to |entries|
        invariant FirstExact(newest, f, 0) == FirstExact(newest, f, i)
        invariant nameMatch.None? ==> FirstName(newest, f.name, 0) == FirstName(newest, f.name, i)
        invariant nameMatch.Some? ==> nameMatch == FromNewest(Value(), FirstName(newest, f.name, 0))
      {
        assert newest[i] == entries[i].field;
        if entries[i].field.name == f.name {
          if entries[i].field.value == f.value {
            return Match(Some(entries[i].absoluteIndex), Some(entries[i].absoluteIndex));
          }
          if nameMatch.None? {
            nameMatch := Some(entries[i].absoluteIndex);
          }
        }
      }
      return Match(None, nameMatch);
    }
  }
}
