/** The mutable session of `connection/wt_types.rs`, and the delivery loop of
    `connection/wt_session.rs`, proved against the value model. */
module WtSessionObject {
  import opened Bytes
  import opened WtWindows
  import S = WtSession

  lemma ThenNothing(d: S.Delivery)
    ensures S.Then([], [], d) == d
  {
    assert [] + d.events == d.events && [] + d.closed == d.closed;
  }

  lemma ThenThen(e1: seq<S.Event>, c1: seq<(nat, bool)>, e2: seq<S.Event>, c2: seq<(nat, bool)>, d: S.Delivery)
    ensures S.Then(e1, c1, S.Then(e2, c2, d)) == S.Then(e1 + e2, c1 + c2, d)
  {
    assert e1 + (e2 + d.events) == e1 + e2 + d.events;
    assert c1 + (c2 + d.closed) == c1 + c2 + d.closed;
  }

  lemma SameWithout(s: S.Session, stream: nat)
    ensures stream !in s.entries ==> S.DropEntry(s, stream) == s
  {
    if stream !in s.entries {
      assert S.DropEntry(s, stream).entries == s.entries;
    }
  }

  class Session {
    var phase: S.Phase
    var associatedStreams: set<nat>
    var bufferedStreams: seq<nat>
    var bufferedStreamEntries: map<nat, S.Entry>
    var bufferedDatagrams: seq<bytes>
    var windows: Option<S.Windows>
    var streamReceivedData: map<nat, nat>
    var pendingCapsules: seq<S.Capsule>

    function Value(): S.Session
      reads this
    {
      S.Session(phase, associatedStreams, bufferedStreams, bufferedStreamEntries, bufferedDatagrams, windows,
                streamReceivedData, pendingCapsules)
    }

    constructor ()
      ensures Value() == S.NEW
    {
      phase, associatedStreams, bufferedStreams, bufferedStreamEntries := S.Pending, {}, [], map[];
      bufferedDatagrams, windows, streamReceivedData, pendingCapsules := [], None, map[], [];
    }

    /** Flow control starts with the session; some peers want the first maxima as capsules. */
    method InitializeFlowControl(enabled: bool, maxUni: nat, maxBidi: nat, maxData: nat, queueCapsules: bool)
      modifies this`windows, this`pendingCapsules
      ensures windows == if enabled then Some(S.Windows(NewStreams(maxUni), NewStreams(maxBidi), NewData(maxData)))
          else old(windows)
      ensures pendingCapsules == old(pendingCapsules)
        + (if enabled && queueCapsules && maxBidi > 0 then [S.MaxStreams(true, maxBidi)] else [])
        + (if enabled && queueCapsules && maxUni > 0 then [S.MaxStreams(false, maxUni)] else [])
        + (if enabled && queueCapsules && maxData > 0 then [S.MaxData(maxData)] else [])
    {
      if !enabled {
        return;
      }
      windows := Some(S.Windows(NewStreams(maxUni), NewStreams(maxBidi), NewData(maxData)));
      if !queueCapsules {
        return;
      }
      if maxBidi > 0 {
        pendingCapsules := pendingCapsules + [S.MaxStreams(true, maxBidi)];
      }
      if maxUni > 0 {
        pendingCapsules := pendingCapsules + [S.MaxStreams(false, maxUni)];
      }
      if maxData > 0 {
        pendingCapsules := pendingCapsules + [S.MaxData(maxData)];
      }
    }

    method AddReceivedStream(isBidi: bool)
      modifies this`windows
      ensures Value() == S.AddReceivedStream(old(Value()), isBidi)
    {
      if windows.Some? {
        var w := windows.value;
        windows := Some(if isBidi then w.(bidi := ReceiveStream(w.bidi)) else w.(uni := ReceiveStream(w.uni)));
      }
    }

    method AddReceivedData(n: nat)
      modifies this`windows
      ensures Value() == S.AddReceivedData(old(Value()), n)
    {
      if windows.Some? {
        windows := Some(windows.value.(data := ReceiveData(windows.value.data, n)));
      }
    }

    method OnRemoteStreamClosed(isBidi: bool)
      modifies this`windows, this`pendingCapsules
      ensures Value() == S.OnRemoteStreamClosed(old(Value()), isBidi)
    {
      if windows.None? {
        return;
      }
      var w := windows.value;
      var (v, announced) := CloseStream(if isBidi then w.bidi else w.uni);
      windows := Some(if isBidi then w.(bidi := v) else w.(uni := v));
      if announced.Some? {
        pendingCapsules := pendingCapsules + [S.MaxStreams(isBidi, announced.value)];
      }
    }

    method OnDataConsumed(n: nat)
      modifies this`windows, this`pendingCapsules
      ensures Value() == S.OnDataConsumed(old(Value()), n)
    {
      if windows.None? {
        return;
      }
      var (v, announced) := ConsumeData(windows.value.data, n);
      windows := Some(windows.value.(data := v));
      if announced.Some? {
        pendingCapsules := pendingCapsules + [S.MaxData(announced.value)];
      }
    }

    method AddReceivedDataAndTrack(stream: nat, n: nat)
      modifies this`windows, this`streamReceivedData
      ensures Value() == S.AddAndTrack(old(Value()), stream, n)
    {
      AddReceivedData(n);
      var before := if stream in streamReceivedData then streamReceivedData[stream] else 0;
      streamReceivedData := streamReceivedData[stream := before + n];
    }

    method RemoveStreamReceivedData(stream: nat)
      modifies this`streamReceivedData
      ensures Value() == S.Untrack(old(Value()), stream)
    {
      streamReceivedData := map x | x in streamReceivedData && x != stream :: streamReceivedData[x];
    }

    method BufferStream(stream: nat, isBidi: bool) returns (ok: bool)
      modifies this`bufferedStreams, this`bufferedStreamEntries
      ensures var spec := S.BufferStream(old(Value()), stream, isBidi);
        ok == spec.Some? && Value() == if ok then spec.value else old(Value())
    {
      if |bufferedStreams| >= S.MAX_BUFFERED_STREAMS {
        return false;
      }
      bufferedStreams := bufferedStreams + [stream];
      bufferedStreamEntries := bufferedStreamEntries[stream := S.Entry(isBidi, [], false)];
      return true;
    }

    method AppendBufferedStreamData(stream: nat, data: bytes) returns (ok: bool)
      modifies this`bufferedStreamEntries
      ensures var spec := S.AppendData(old(Value()), stream, data);
        ok == spec.Some? && Value() == if ok then spec.value else old(Value())
    {
      if stream !in bufferedStreamEntries {
        return false;
      }
      var e := bufferedStreamEntries[stream];
      if |e.data| + |data| > S.MAX_BUFFERED_STREAM_BYTES {
        return false;
      }
      bufferedStreamEntries := bufferedStreamEntries[stream := e.(data := e.data + data)];
      return true;
    }

    method MarkBufferedStreamFin(stream: nat)
      modifies this`bufferedStreamEntries
      ensures Value() == S.MarkFin(old(Value()), stream)
    {
      if stream in bufferedStreamEntries {
        bufferedStreamEntries := bufferedStreamEntries[stream := bufferedStreamEntries[stream].(fin := true)];
      }
    }

    method TakeBufferedStreamEntry(stream: nat) returns (entry: Option<S.Entry>)
      modifies this`bufferedStreamEntries
      ensures entry == if stream in old(bufferedStreamEntries) then Some(old(bufferedStreamEntries)[stream]) else None
      ensures Value() == S.DropEntry(old(Value()), stream)
    {
      entry := if stream in bufferedStreamEntries then Some(bufferedStreamEntries[stream]) else None;
      bufferedStreamEntries := map x | x in bufferedStreamEntries && x != stream :: bufferedStreamEntries[x];
    }

    method RestoreBufferedStream(stream: nat, entry: S.Entry)
      modifies this`bufferedStreams, this`bufferedStreamEntries
      ensures Value() == S.RestoreEntry(old(Value()), stream, entry)
    {
      bufferedStreams := bufferedStreams + [stream];
      bufferedStreamEntries := bufferedStreamEntries[stream := entry];
    }

    /** Puts the streams after the violating one back. */
    method RestoreRest(ids: seq<nat>, start: nat)
      requires start <= |ids|
      modifies this`bufferedStreams, this`bufferedStreamEntries
      ensures Value() == S.RestoreAll(old(Value()), ids[start..])
    {
      ghost var goal := S.RestoreAll(Value(), ids[start..]);
      for i := start to |ids|
        invariant S.RestoreAll(Value(), ids[i..]) == goal
      {
        assert ids[i..][1..] == ids[i + 1..];
        SameWithout(Value(), ids[i]);
        var entry := TakeBufferedStreamEntry(ids[i]);
        if entry.Some? {
          RestoreBufferedStream(ids[i], entry.value);
        }
      }
    }

    /** `deliver_buffered_streams` */
    method DeliverBufferedStreams() returns (events: seq<S.Event>, closed: seq<(nat, bool)>, violation: bool)
      modifies this
      ensures var d := S.Deliver(old(Value()));
        Value() == d.session && events == d.events && closed == d.closed && violation == d.violation
    {
      hide S.DeliveredSession, S.OpenedSession, S.CheckReceivedStream, S.CheckReceivedData, S.DropEntry, S.RestoreAll,
          S.EventsOf;
      var ids := bufferedStreams;
      bufferedStreams := [];
      events, closed, violation := [], [], false;
      ghost var goal := S.DeliverFrom(Value(), ids);
      ThenNothing(goal);
      assert ids[0..] == ids;
      for i := 0 to |ids|
        invariant goal == S.Then(events, closed, S.DeliverFrom(Value(), ids[i..]))
      {
        assert ids[i..][0] == ids[i] && ids[i..][1..] == ids[i + 1..];
        if ids[i] in bufferedStreamEntries {
          ghost var s := Value();
          var more, ended, stop := DeliverOne(ids, i);
          if stop {
            ThenThen(events, closed, more, [], S.Delivery(Value(), [], [], true));
            events, violation := events + more, true;
            assert closed + [] == closed;
            return;
          }
          ThenThen(events, closed, more, ended, S.DeliverFrom(Value(), ids[i + 1..]));
          events, closed := events + more, closed + ended;
        }
      }
      assert events + [] == events && closed + [] == closed;
    }

    /** One early stream; on a violation everything undelivered is put back. */
    method DeliverOne(ids: seq<nat>, i: nat) returns (events: seq<S.Event>, ended: seq<(nat, bool)>, stop: bool)
      requires i < |ids| && ids[i] in bufferedStreamEntries
      modifies this
      ensures var s, entry := old(Value()), old(bufferedStreamEntries)[ids[i]];
        var t := S.DropEntry(s, ids[i]);
        && (stop ==> S.DeliverFrom(s, ids[i..]) == S.Delivery(Value(), events, [], true))
        && (!stop ==> S.DeliverFrom(s, ids[i..]) == S.Then(events, ended, S.DeliverFrom(Value(), ids[i + 1..])))
    {
      hide S.RestoreAll, S.DropEntry, S.AddReceivedStream, S.AddAndTrack, S.OnRemoteStreamClosed, S.Untrack;
      var stream := ids[i];
      assert ids[i..][0] == stream && ids[i..][1..] == ids[i + 1..];
      var taken := TakeBufferedStreamEntry(stream);
      var entry := taken.value;
      ended, stop := [], false;
      if !S.CheckReceivedStream(Value(), entry.isBidi) {
        RestoreBufferedStream(stream, entry);
        RestoreRest(ids, i + 1);
        return [], [], true;
      }
      AddReceivedStream(entry.isBidi);
      associatedStreams := associatedStreams + {stream};
      events := [S.Open(entry.isBidi, stream)];
      if |entry.data| > 0 {
        if !S.CheckReceivedData(Value(), |entry.data|) {
          RestoreRest(ids, i + 1);
          RestoreBufferedStream(stream, entry);
          return events, [], true;
        }
        AddReceivedDataAndTrack(stream, |entry.data|);
        events := events + [S.Data(entry.isBidi, stream, entry.data)];
      }
      if entry.fin {
        OnRemoteStreamClosed(entry.isBidi);
        RemoveStreamReceivedData(stream);
        ended := [(stream, entry.isBidi)];
        events := events + [S.End(entry.isBidi, stream)];
      }
      assert events == S.EventsOf(stream, entry);
    }
  }
}
