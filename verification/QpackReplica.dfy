/** Facts about replays and about outstanding counts that the steps of the QPACK state
    machine rest on. */
module QpackReplica {
  import opened Bytes
  import opened Fields
  import opened FieldLines
  import opened FieldSection
  import opened InsertCount
  import opened PrefixInteger
  import opened TableModel
  import opened EncoderModel
  import opened QpackSystem
  import opened QpackInvariant
  import E = EncoderInstructions
  import D = DecoderInstructions

  // ---- Replicas -------------------------------------------------------------

  lemma ApplyGrows(k: Codebook, t: Table, i: E.Instruction, maxCapacity: nat)
    requires |k.fixed| == STATIC_TABLE_LEN && E.Apply(k, t, i, maxCapacity).Ok?
    ensures var r := E.Apply(k, t, i, maxCapacity).value; t.log <= r.log && t.dropped <= r.dropped
  {
    hide E.Denotes;
    if !i.SetTableCapacity? {
      InsertAppends(t, E.Denotes(k, t, i).value);
    }
  }

  lemma {:induction false} ReplayGrows(k: Codebook, t: Table, instructions: seq<E.Instruction>, maxCapacity: nat)
    requires |k.fixed| == STATIC_TABLE_LEN && E.Replay(k, t, instructions, maxCapacity).Some?
    ensures var r := E.Replay(k, t, instructions, maxCapacity).value; t.log <= r.log && t.dropped <= r.dropped
  {
    hide E.Apply;
    if instructions != [] {
      var n := |instructions| - 1;
      ReplayGrows(k, t, instructions[..n], maxCapacity);
      ApplyGrows(k, E.Replay(k, t, instructions[..n], maxCapacity).value, instructions[n], maxCapacity);
    }
  }

  /** The decoder is behind the encoder: fewer insertions, and nothing dropped that the
      encoder still has. */
  lemma DecoderBehind(c: Config, t: Table, dec: Table, octets: bytes, instructions: seq<E.Instruction>, applied: nat)
    requires Agreed(c) && ReplicaInv(c, t, dec, octets, instructions, applied)
    ensures dec.log <= t.log && dec.dropped <= t.dropped
  {
    hide E.Apply, E.Replay, E.EncodeAll, E.Sendable;
    assert instructions == instructions[..applied] + instructions[applied..];
    E.ReplayConcat(c.book, EMPTY, instructions[..applied], instructions[applied..], c.maxCapacity);
    ReplayGrows(c.book, dec, instructions[applied..], c.maxCapacity);
  }

  lemma LiveIndexSendable(t: Table, i: nat)
    requires Size(t) <= t.capacity <= MAX_VALUE && i < LiveCount(t)
    ensures i <= MAX_VALUE
  {
    LiveCountBound(t);
  }

  /** An instruction whose insertion the encoder's table accepts is one that the decoder's
      replica accepts, and it makes the same entry, whatever the encoder protects. */
  lemma ReplicaStep(k: Codebook, t: Table, i: E.Instruction, f: Field, maxCapacity: nat)
    requires Usable(k) && Size(t) <= t.capacity <= MAX_VALUE
    requires E.Names(k, t, i, f) && Insert(t, f).1.Some?
    ensures E.Apply(k, SetLimit(t, 0), i, maxCapacity) == Ok(SetLimit(Insert(t, f).0, 0))
    ensures E.Sendable(i)
  {
    hide Size, Evict, E.Denotes;
    E.NamesIsDenotes(k, SetLimit(t, 0), i, f);
    InsertIgnoresLimit(t, f);
    InsertAllOrNothing(t, f);
    if (i.InsertNameRef? && !i.isStatic) || i.DuplicateEntry? {
      LiveIndexSendable(t, i.index);
    }
  }

  lemma ReplicaInsert(c: Config, t: Table, dec: Table, octets: bytes, instructions: seq<E.Instruction>, applied: nat,
                      i: E.Instruction, f: Field)
    requires Agreed(c) && ReplicaInv(c, t, dec, octets, instructions, applied)
    requires Size(t) <= t.capacity <= MAX_VALUE && E.Names(c.book, t, i, f) && Insert(t, f).1.Some?
    ensures ReplicaInv(c, Insert(t, f).0, dec, octets + E.EncodeInstruction(c.book, i), instructions + [i], applied)
  {
    hide E.Apply, E.EncodeInstruction, E.Names, Insert, E.Sendable;
    ReplicaStep(c.book, t, i, f, c.maxCapacity);
    var more := instructions + [i];
    assert more[..|more| - 1] == instructions && more[..applied] == instructions[..applied];
    assert more[applied..] == instructions[applied..] + [i];
    E.EncodeAllSnoc(c.book, instructions[applied..], i);
  }

  /** However much of the encoder stream arrives next, the decoder applies some more of the
      instructions and reports no error. */
  lemma ReplicaDeliver(c: Config, t: Table, dec: Table, buffer: bytes, wire: bytes, instructions: seq<E.Instruction>,
                       applied: nat, n: nat) returns (more: nat)
    requires Agreed(c) && ReplicaInv(c, t, dec, buffer + wire, instructions, applied) && n <= |wire|
    ensures var d := E.Drain(c.book, dec, buffer + wire[..n], c.maxCapacity);
      && d.Idle? && dec.log <= d.table.log
      && ReplicaInv(c, t, d.table, d.buffer + wire[n..], instructions, applied + more)
  {
    hide E.Apply, E.Sendable, E.Drain, E.EncodeAll;
    var rest := instructions[applied..];
    assert instructions == instructions[..applied] + rest;
    E.ReplayConcat(c.book, EMPTY, instructions[..applied], rest, c.maxCapacity);
    assert buffer + wire[..n] + wire[n..] == buffer + wire;
    more := E.DrainsWhatArrived(c.book, dec, rest, buffer + wire[..n], wire[n..], c.maxCapacity);
    assert instructions[..applied + more] == instructions[..applied] + rest[..more];
    assert instructions[applied + more..] == rest[more..];
    E.ReplayConcat(c.book, EMPTY, instructions[..applied], rest[..more], c.maxCapacity);
    ReplayGrows(c.book, dec, rest[..more], c.maxCapacity);
  }

  // ---- Outstanding counts -----------------------------------------------------

  lemma {:induction false} SettleShrinks(counts: seq<nat>, pending: seq<Pending>, stream: nat)
    ensures Settle(counts, pending, stream).Some? ==> |Settle(counts, pending, stream).value| <= |counts|
    decreases |pending|
  {
    if pending != [] {
      var next := SettleOne(counts, pending[0], stream);
      if next.Some? {
        SettleShrinks(next.value, pending[1..], stream);
      }
    }
  }

  /** A newly tracked section stays outstanding through all reports that are on their way,
      unless the stream is being cancelled. */
  lemma {:induction false} SettleTracked(counts: seq<nat>, ric: nat, pending: seq<Pending>, stream: nat)
    requires Settle(counts, pending, stream).Some?
    ensures Settle(counts + [ric], pending, stream).Some?
    ensures !Cancelled(pending, stream) ==>
      Settle(counts + [ric], pending, stream) == Some(Settle(counts, pending, stream).value + [ric])
    decreases |pending|
  {
    if pending != [] {
      var p, rest := pending[0], pending[1..];
      var next := SettleOne(counts, p, stream).value;
      if p.report == D.StreamCancel(stream) {
        assert Cancelled(pending, stream);
      } else {
        assert counts != [] ==> (counts + [ric])[1..] == counts[1..] + [ric];
        assert SettleOne(counts + [ric], p, stream) == Some(next + [ric]);
        assert Cancelled(rest, stream) ==> Cancelled(pending, stream) by {
          if Cancelled(rest, stream) {
            var i :| 0 <= i < |rest| && rest[i].report == D.StreamCancel(stream);
            assert pending[i + 1] == rest[i];
          }
        }
        SettleTracked(next, ric, rest, stream);
      }
    }
  }

  /** One more report at the end is settled last. */
  lemma {:induction false} SettleLast(counts: seq<nat>, pending: seq<Pending>, p: Pending, stream: nat)
    requires Settle(counts, pending, stream).Some?
    ensures Settle(counts, pending + [p], stream) == SettleOne(Settle(counts, pending, stream).value, p, stream)
    decreases |pending|
  {
    if pending == [] {
      assert [] + [p] == [p] && [p][1..] == [];
      var next := SettleOne(counts, p, stream);
      assert next.Some? ==> Settle(next.value, [], stream) == next;
    } else {
      assert (pending + [p])[1..] == pending[1..] + [p];
      SettleLast(SettleOne(counts, pending[0], stream).value, pending[1..], p, stream);
    }
  }

  lemma CancelledSnoc(pending: seq<Pending>, p: Pending, stream: nat)
    requires p.report != D.StreamCancel(stream)
    ensures Cancelled(pending + [p], stream) <==> Cancelled(pending, stream)
  {
    var more := pending + [p];
    if Cancelled(more, stream) {
      var i :| 0 <= i < |more| && more[i].report == D.StreamCancel(stream);
      assert pending[i] == more[i];
    }
    if Cancelled(pending, stream) {
      var i :| 0 <= i < |pending| && pending[i].report == D.StreamCancel(stream);
      assert more[i] == pending[i];
    }
  }

  lemma {:induction false} CountsSnoc(flights: seq<Flight>, f: Flight)
    ensures Counts(flights + [f]) == if f.ric > 0 then Counts(flights) + [f.ric] else Counts(flights)
  {
    if flights == [] {
      assert [] + [f] == [f] && [f][1..] == [];
    } else {
      assert (flights + [f])[1..] == flights[1..] + [f];
      CountsSnoc(flights[1..], f);
    }
  }

  lemma {:induction false} CountsHas(flights: seq<Flight>, i: nat)
    requires i < |flights| && flights[i].ric > 0
    ensures Counts(flights) != []
  {
    if i > 0 {
      CountsHas(flights[1..], i - 1);
    }
  }

  lemma {:induction false} SumSnoc(pending: seq<Pending>, p: Pending)
    ensures SumIncrements(pending + [p])
         == SumIncrements(pending) + if p.report.CountIncrement? then p.report.increment else 0
  {
    if pending == [] {
      assert [] + [p] == [p] && [p][1..] == [];
    } else {
      assert (pending + [p])[1..] == pending[1..] + [p];
      SumSnoc(pending[1..], p);
    }
  }

  lemma ReportsSnoc(pending: seq<Pending>, p: Pending)
    ensures D.EncodeAll(Reports(pending + [p])) == D.EncodeAll(Reports(pending)) + D.EncodeReport(p.report)
  {
    D.EncodeAllSnoc(Reports(pending), p.report);
    assert Reports(pending + [p]) == Reports(pending) + [p.report];
  }

  lemma ReportsTail(pending: seq<Pending>)
    requires pending != []
    ensures D.EncodeAll(Reports(pending)) == D.EncodeReport(pending[0].report) + D.EncodeAll(Reports(pending[1..]))
  {
    assert Reports(pending)[1..] == Reports(pending[1..]);
  }
}
