/** A WebTransport session as a connection keeps it: early arrivals that wait for the session
    to be established, per-stream accounting, and receive windows. */
module WtSession {
  import opened Bytes
  import opened WtWindows

  const MAX_BUFFERED_STREAMS: nat := 100
  const MAX_BUFFERED_DATAGRAMS: nat := 100
  const MAX_BUFFERED_STREAM_BYTES: nat := 64 * 1024

  datatype Phase = Pending | Established | Draining | Closed

  /** A stream that arrived early: its direction, what it carried, whether it has ended. */
  datatype Entry = Entry(isBidi: bool, data: bytes, fin: bool)

  datatype Capsule = MaxStreams(isBidi: bool, max: nat) | MaxData(max: nat)

  datatype Windows = Windows(uni: StreamWindow, bidi: StreamWindow, data: DataWindow)

  datatype Session = Session(
    phase: Phase,
    associated: set<nat>,
    order: seq<nat>,                // early streams, in order of arrival
    entries: map<nat, Entry>,
    datagrams: seq<bytes>,
    windows: Option<Windows>,       // present when flow control is enabled
    tracked: map<nat, nat>,         // accounted octets by stream
    capsules: seq<Capsule>          // to be sent
  )

  const NEW: Session := Session(Pending, {}, [], map[], [], None, map[], [])

  datatype Event =
    | Open(isBidi: bool, stream: nat)
    | Data(isBidi: bool, stream: nat, data: bytes)
    | End(isBidi: bool, stream: nat)

  // ---- Flow control -----------------------------------------------------------

  predicate CheckReceivedStream(s: Session, isBidi: bool) {
    s.windows.None? || CheckStream(if isBidi then s.windows.value.bidi else s.windows.value.uni)
  }

  function AddReceivedStream(s: Session, isBidi: bool): Session {
    if s.windows.None? then s
    else
      var w := s.windows.value;
      s.(windows := Some(if isBidi then w.(bidi := ReceiveStream(w.bidi)) else w.(uni := ReceiveStream(w.uni))))
  }

  predicate CheckReceivedData(s: Session, n: nat) {
    s.windows.None? || CheckData(s.windows.value.data, n)
  }

  function AddReceivedData(s: Session, n: nat): Session {
    if s.windows.None? then s
    else s.(windows := Some(s.windows.value.(data := ReceiveData(s.windows.value.data, n))))
  }

  function OnRemoteStreamClosed(s: Session, isBidi: bool): Session {
    if s.windows.None? then s
    else
      var w := s.windows.value;
      var (v, announced) := CloseStream(if isBidi then w.bidi else w.uni);
      s.(windows := Some(if isBidi then w.(bidi := v) else w.(uni := v)),
         capsules := if announced.Some? then s.capsules + [MaxStreams(isBidi, announced.value)] else s.capsules)
  }

  function OnDataConsumed(s: Session, n: nat): Session {
    if s.windows.None? then s
    else
      var w := s.windows.value;
      var (v, announced) := ConsumeData(w.data, n);
      s.(windows := Some(w.(data := v)),
         capsules := if announced.Some? then s.capsules + [MaxData(announced.value)] else s.capsules)
  }

  // ---- Per-stream accounting ------------------------------------------------------

  function Accounted(s: Session, stream: nat): nat {
    if stream in s.tracked then s.tracked[stream] else 0
  }

  /** Window and per-stream count always move together. */
  function AddAndTrack(s: Session, stream: nat, n: nat): Session {
    AddReceivedData(s, n).(tracked := s.tracked[stream := Accounted(s, stream) + n])
  }

  function Untrack(s: Session, stream: nat): Session {
    s.(tracked := map x | x in s.tracked && x != stream :: s.tracked[x])
  }

  // ---- Early arrivals -----------------------------------------------------------

  /** None when too many streams are waiting already. */
  function BufferStream(s: Session, stream: nat, isBidi: bool): Option<Session> {
    if |s.order| >= MAX_BUFFERED_STREAMS then None
    else Some(s.(order := s.order + [stream], entries := s.entries[stream := Entry(isBidi, [], false)]))
  }

  /** None when nothing waits under this id, or the octets would be too many. */
  function AppendData(s: Session, stream: nat, data: bytes): Option<Session> {
    if stream !in s.entries || |s.entries[stream].data| + |data| > MAX_BUFFERED_STREAM_BYTES then None
    else Some(s.(entries := s.entries[stream := s.entries[stream].(data := s.entries[stream].data + data)]))
  }

  function MarkFin(s: Session, stream: nat): Session {
    if stream !in s.entries then s else s.(entries := s.entries[stream := s.entries[stream].(fin := true)])
  }

  function DropEntry(s: Session, stream: nat): (r: Session)
    ensures stream !in r.entries && forall x :: x != stream ==> (x in r.entries <==> x in s.entries)
    ensures forall x :: x in r.entries ==> r.entries[x] == s.entries[x]
    ensures r == s.(entries := r.entries)
  {
    s.(entries := map x | x in s.entries && x != stream :: s.entries[x])
  }

  function RestoreEntry(s: Session, stream: nat, e: Entry): Session {
    s.(order := s.order + [stream], entries := s.entries[stream := e])
  }

  function BufferDatagram(s: Session, data: bytes): Session {
    if |s.datagrams| >= MAX_BUFFERED_DATAGRAMS then s else s.(datagrams := s.datagrams + [data])
  }

  // ---- Delivery -----------------------------------------------------------------

  /** Puts back the streams of `ids` that still have an entry. */
  function RestoreAll(s: Session, ids: seq<nat>): Session
    decreases |ids|
  {
    if ids == [] then s
    else if ids[0] in s.entries then
      RestoreAll(RestoreEntry(DropEntry(s, ids[0]), ids[0], s.entries[ids[0]]), ids[1..])
    else RestoreAll(s, ids[1..])
  }

  datatype Delivery = Delivery(session: Session, events: seq<Event>, closed: seq<(nat, bool)>, violation: bool)

  function Then(events: seq<Event>, closed: seq<(nat, bool)>, d: Delivery): Delivery {
    d.(events := events + d.events, closed := closed + d.closed)
  }

  /** One early stream: opened, associated, its octets accounted and handed over, its end
      reported. `entry` has been taken out of `s`. */
  function OpenedSession(s: Session, stream: nat, entry: Entry): Session {
    AddReceivedStream(s, entry.isBidi).(associated := s.associated + {stream})
  }

  function EventsOf(stream: nat, entry: Entry): seq<Event> {
    [Open(entry.isBidi, stream)]
    + (if entry.data == [] then [] else [Data(entry.isBidi, stream, entry.data)])
    + (if entry.fin then [End(entry.isBidi, stream)] else [])
  }

  function DeliveredSession(s: Session, stream: nat, entry: Entry): Session {
    var started := OpenedSession(s, stream, entry);
    var filled := if entry.data == [] then started else AddAndTrack(started, stream, |entry.data|);
    if entry.fin then Untrack(OnRemoteStreamClosed(filled, entry.isBidi), stream) else filled
  }

  /** The loop of `deliver_buffered_streams` over the ids that are left. It stops at the first
      violation of a stream or data limit, with everything undelivered put back. */
  function DeliverFrom(s: Session, ids: seq<nat>): Delivery
    decreases |ids|
  {
    if ids == [] then Delivery(s, [], [], false)
    else if ids[0] !in s.entries then DeliverFrom(s, ids[1..])
    else
      var stream, entry, t := ids[0], s.entries[ids[0]], DropEntry(s, ids[0]);
      if !CheckReceivedStream(t, entry.isBidi) then
        Delivery(RestoreAll(RestoreEntry(t, stream, entry), ids[1..]), [], [], true)
      else
        var started := OpenedSession(t, stream, entry);
        if entry.data != [] && !CheckReceivedData(started, |entry.data|) then
          Delivery(RestoreEntry(RestoreAll(started, ids[1..]), stream, entry), [Open(entry.isBidi, stream)], [], true)
        else
          Then(EventsOf(stream, entry), if entry.fin then [(stream, entry.isBidi)] else [],
               DeliverFrom(DeliveredSession(t, stream, entry), ids[1..]))
  }

  function Deliver(s: Session): Delivery {
    DeliverFrom(s.(order := []), s.order)
  }

  // ---- No early stream is lost ------------------------------------------------------

  /** Every stream of `ids` is accounted for: it was delivered in full, or it still waits, as
      it was, and will be found by its id. */
  ghost predicate Handled(before: Session, stream: nat, d: Delivery) {
    stream in before.entries ==>
      var e := before.entries[stream];
      || (stream in d.session.associated && stream !in d.session.entries && Occurs(EventsOf(stream, e), d.events))
      || (d.violation && stream in d.session.entries && d.session.entries[stream] == e && stream in d.session.order)
  }

  predicate OccursAt(part: seq<Event>, whole: seq<Event>, i: nat) {
    i + |part| <= |whole| && whole[i..i + |part|] == part
  }

  /** The events of one stream appear together. */
  ghost predicate Occurs(part: seq<Event>, whole: seq<Event>) {
    exists i: nat :: OccursAt(part, whole, i)
  }

  lemma OccursLater(part: seq<Event>, first: seq<Event>, whole: seq<Event>)
    requires Occurs(part, whole)
    ensures Occurs(part, first + whole)
  {
    var i: nat :| OccursAt(part, whole, i);
    var j := |first| + i;
    assert (first + whole)[j..j + |part|] == whole[i..i + |part|];
    assert OccursAt(part, first + whole, j);
  }

  lemma OccursFirst(part: seq<Event>, whole: seq<Event>)
    ensures Occurs(part, part + whole)
  {
    assert OccursAt(part, part + whole, 0);
  }

  lemma {:induction false} RestoreAllKeeps(s: Session, ids: seq<nat>)
    ensures var r := RestoreAll(s, ids);
      && r.entries == s.entries && r.associated == s.associated && r.windows == s.windows && r.tracked == s.tracked
      && s.order <= r.order
      && (forall x :: x in ids && x in s.entries ==> x in r.order)
    decreases |ids|
  {
    if ids != [] {
      if ids[0] in s.entries {
        var next := RestoreEntry(DropEntry(s, ids[0]), ids[0], s.entries[ids[0]]);
        assert next.entries == s.entries;
        RestoreAllKeeps(next, ids[1..]);
        assert next.order[|s.order|] == ids[0];
      } else {
        RestoreAllKeeps(s, ids[1..]);
      }
    }
  }

  /** What delivery leaves alone: it opens and associates, and entries of streams it was not
      asked about stay. */
  lemma {:induction false} DeliverFromFrame(s: Session, ids: seq<nat>)
    ensures var d := DeliverFrom(s, ids);
      && s.associated <= d.session.associated
      && (forall x :: x in s.entries && x !in ids ==> x in d.session.entries && d.session.entries[x] == s.entries[x])
      && (forall x :: x in d.session.entries ==> x in s.entries && d.session.entries[x] == s.entries[x])
    decreases |ids|
  {
    if ids != [] {
      if ids[0] !in s.entries {
        DeliverFromFrame(s, ids[1..]);
      } else {
        var stream, entry, t := ids[0], s.entries[ids[0]], DropEntry(s, ids[0]);
        RestoreAllKeeps(RestoreEntry(t, stream, entry), ids[1..]);
        RestoreAllKeeps(OpenedSession(t, stream, entry), ids[1..]);
        DeliverFromFrame(DeliveredSession(t, stream, entry), ids[1..]);
      }
    }
  }

  lemma PrefixHas(part: seq<nat>, whole: seq<nat>, i: nat)
    requires part <= whole && i < |part|
    ensures part[i] in whole
  {
    assert whole[i] == part[i];
  }

  /** What the first stream of the list comes to. */
  lemma FirstHandled(s: Session, ids: seq<nat>)
    requires ids != [] && ids[0] in s.entries
    ensures Handled(s, ids[0], DeliverFrom(s, ids))
    ensures !DeliverFrom(s, ids).violation ==> ids[0] !in DeliverFrom(s, ids).session.entries
  {
    hide DeliveredSession, OpenedSession, CheckReceivedStream, CheckReceivedData, Occurs;
    var id, entry, t := ids[0], s.entries[ids[0]], DropEntry(s, ids[0]);
    var start := OpenedSession(t, id, entry);
    RestoreAllKeeps(RestoreEntry(t, id, entry), ids[1..]);
    RestoreAllKeeps(start, ids[1..]);
    OpenedAssociates(t, id, entry);
    PrefixHas(t.order + [id], RestoreAll(RestoreEntry(t, id, entry), ids[1..]).order, |t.order|);
    var kept := RestoreAll(start, ids[1..]);
    assert (kept.order + [id])[|kept.order|] == id;
    var next := DeliveredSession(t, id, entry);
    DeliverFromFrame(next, ids[1..]);
    OccursFirst(EventsOf(id, entry), DeliverFrom(next, ids[1..]).events);
  }

  lemma OpenedAssociates(s: Session, stream: nat, entry: Entry)
    ensures stream in OpenedSession(s, stream, entry).associated
    ensures OpenedSession(s, stream, entry).entries == s.entries
    ensures stream in DeliveredSession(s, stream, entry).associated
    ensures DeliveredSession(s, stream, entry).entries == s.entries
  {
  }

  /** Whatever the limits, no early stream is lost: each is delivered in full or still waits
      with the same direction, octets and end. Without a violation all are delivered. */
  lemma {:induction false} NoStreamLost(s: Session, ids: seq<nat>, stream: nat)
    requires stream in ids && stream in s.entries
    ensures Handled(s, stream, DeliverFrom(s, ids))
    ensures !DeliverFrom(s, ids).violation ==> stream !in DeliverFrom(s, ids).session.entries
    decreases |ids|
  {
    hide DeliveredSession, OpenedSession, CheckReceivedStream, CheckReceivedData, Occurs;
    var id := ids[0];
    if id !in s.entries {
      NoStreamLost(s, ids[1..], stream);
    } else if stream == id {
      FirstHandled(s, ids);
    } else {
      var entry, t := s.entries[id], DropEntry(s, id);
      RestoreAllKeeps(RestoreEntry(t, id, entry), ids[1..]);
      OpenedAssociates(t, id, entry);
      RestoreAllKeeps(OpenedSession(t, id, entry), ids[1..]);
      var next := DeliveredSession(t, id, entry);
      NoStreamLost(next, ids[1..], stream);
      var part, d := EventsOf(stream, s.entries[stream]), DeliverFrom(next, ids[1..]);
      if Occurs(part, d.events) {
        OccursLater(part, EventsOf(id, entry), d.events);
      }
    }
  }
}
