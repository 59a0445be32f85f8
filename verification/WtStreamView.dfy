/** What a connection holds of one stream, and what the application has been told about it. */
module WtStreamView {
  import opened Bytes
  import opened WtEarlyStream
  import opened WtTransparency
  import opened WtConnection
  import K = WtConnection
  import A = WtAccounting
  import C = WtConservation
  import D = WtDelivery
  import S = WtSession

  /** A stream, its direction, and the session that its header names. */
  datatype Who = Who(stream: nat, session: nat, isBidi: bool)

  // ---- The events of one stream --------------------------------------------------------------

  predicate Ours(e: Event, w: Who) {
    match e
    case StreamEvent(session, event) => session == w.session && event.stream == w.stream
    case StreamReset(_, stream, _) => stream == w.stream
    case _ => false
  }

  function Mine(events: seq<Event>, w: Who): seq<S.Event> {
    if events == [] then []
    else
      var before, e := Mine(events[..|events| - 1], w), events[|events| - 1];
      if e.StreamEvent? && Ours(e, w) then before + [e.event] else before
  }

  lemma MineSnoc(events: seq<Event>, e: Event, w: Who)
    ensures Mine(events + [e], w) == Mine(events, w) + if e.StreamEvent? && Ours(e, w) then [e.event] else []
  {
    assert (events + [e])[..|events|] == events;
  }

  /** The same for this stream, in what the application saw and in what was charged. */
  ghost predicate Quiet(before: seq<Event>, after: seq<Event>, w: Who) {
    Mine(after, w) == Mine(before, w)
    && A.Charge(Role.Server, w.session, w.stream, after) == A.Charge(Role.Server, w.session, w.stream, before)
  }

  lemma {:induction false} QuietEvents(events: seq<Event>, more: seq<Event>, w: Who)
    requires forall i :: 0 <= i < |more| ==> !Ours(more[i], w)
    ensures Quiet(events, events + more, w)
    decreases |more|
  {
    hide A.Charge, Mine;
    if more == [] {
      assert events + more == events;
    } else {
      var n := |more| - 1;
      QuietEvents(events, more[..n], w);
      assert events + more == events + more[..n] + [more[n]];
      MineSnoc(events + more[..n], more[n], w);
      A.ChargeSnoc(Role.Server, w.session, w.stream, events + more[..n], more[n]);
    }
  }

  lemma NewEvent(events: seq<Event>, e: S.Event, w: Who)
    requires e.stream == w.stream
    ensures var now := events + [StreamEvent(w.session, e)];
      && Mine(now, w) == Mine(events, w) + [e]
      && SeenOf(Mine(now, w), w.stream, w.isBidi)
          == See(SeenOf(Mine(events, w), w.stream, w.isBidi), w.stream, w.isBidi, e)
      && A.Charge(Role.Server, w.session, w.stream, now)
         == A.Charge(Role.Server, w.session, w.stream, events) + if e.Data? then |e.data| else 0
  {
    hide A.Charge, Mine;
    MineSnoc(events, StreamEvent(w.session, e), w);
    A.ChargeSnoc(Role.Server, w.session, w.stream, events, StreamEvent(w.session, e));
    SeenSnoc(Mine(events, w), e, w.stream, w.isBidi);
  }

  // ---- What the connection holds of the stream ------------------------------------------------

  predicate Refused(events: seq<Event>, w: Who) {
    Rejected(w.stream, true) in events || Rejected(w.stream, false) in events
  }

  /** After the octets `part`, and the end if `fin`. */
  ghost predicate ConnShape(c: Conn, w: Who, part: bytes, fin: bool, joined: bool, established: bool, head: nat) {
    var charge := A.Charge(Role.Server, w.session, w.stream, c.events);
    if !joined then
      && w.stream !in c.streams && Mine(c.events, w) == [] && charge == 0
      && (w.session in c.sessions ==> w.stream !in c.sessions[w.session].entries)
    else
      && head <= |part|
      && (w.stream in c.streams ==> c.streams[w.stream] == Registration(w.session, w.isBidi))
      && if !established then
           && Mine(c.events, w) == [] && charge == 0
           && w.stream in c.streams && w.session in c.sessions && w.stream in c.sessions[w.session].entries
           && c.sessions[w.session].entries[w.stream] == S.Entry(w.isBidi, part[head..], fin)
         else
           && SeenOf(Mine(c.events, w), w.stream, w.isBidi)
               == (if fin then Ended(part[head..]) else Running(part[head..]))
           && charge == |part| - head && (w.stream in c.streams <==> !fin)
  }

  lemma RefusalSeen(events: seq<Event>, w: Who)
    ensures forall gone :: Refused(events + [Rejected(w.stream, gone)], w)
  {
    forall gone
      ensures Refused(events + [Rejected(w.stream, gone)], w)
    {
      assert (events + [Rejected(w.stream, gone)])[|events|] == Rejected(w.stream, gone);
    }
  }

  /** What `Hold` does when the stream is not refused. */
  lemma HoldStep(c: Conn, w: Who, held: S.Entry, data: bytes)
    requires w.session in c.sessions && w.stream in c.sessions[w.session].entries
        && c.sessions[w.session].entries[w.stream] == held
    requires !Refused(Hold(c, w.session, w.stream, data).events, w)
    ensures var d := Hold(c, w.session, w.stream, data);
      && d.events == c.events && d.streams == c.streams && w.session in d.sessions
      && d.sessions[w.session].phase == c.sessions[w.session].phase
      && w.stream in d.sessions[w.session].entries
      && d.sessions[w.session].entries[w.stream] == held.(data := held.data + data)
  {
    assert held.data + [] == held.data;
    RefusalSeen(c.events, w);
  }

  /** What `Accept` does when the session goes on. */
  lemma AcceptStep(c: Conn, w: Who, isBidi: bool, data: bytes)
    requires w.session in c.sessions && w.session in Accept(c, w.session, w.stream, isBidi, data).sessions
    ensures var d := Accept(c, w.session, w.stream, isBidi, data);
      && d.events == c.events + (if data == [] then [] else [StreamEvent(w.session, S.Data(isBidi, w.stream, data))])
      && d.role == c.role && d.streams == c.streams && d.sessions[w.session].phase == c.sessions[w.session].phase
      && (data == [] || S.CheckReceivedData(c.sessions[w.session], |data|))
  {
    hide S.CheckReceivedData, S.AddReceivedData;
    AddedPhase(c.sessions[w.session], |data|);
  }

  lemma AddedPhase(s: S.Session, n: nat)
    ensures S.AddReceivedData(s, n).phase == s.phase
  {
  }

  /** The stream meets its session. */
  lemma AssociateStep(c: Conn, w: Who)
    ensures var (d, outcome) := Associate(c, w.stream, w.session, w.isBidi);
      && d.events == c.events && d.streams == c.streams
      && (outcome.Buffered? ==>
            && w.session in d.sessions && d.sessions[w.session].phase.Pending?
            && w.stream in d.sessions[w.session].entries
            && d.sessions[w.session].entries[w.stream] == S.Entry(w.isBidi, [], false))
      && (outcome.Joined? ==> w.session in d.sessions && d.sessions[w.session].phase.Established?)
  {
    hide PendingCount;
  }

  lemma AddStreamKeeps(s: S.Session, isBidi: bool)
    ensures S.AddReceivedStream(s, isBidi).phase == s.phase
  {
  }

  /** The header is complete: the stream is registered and waits, or is opened. */
  lemma NewStreamStep(c: Conn, w: Who, payload: bytes)
    requires w.stream !in c.streams
    requires var d := NewStream(c, w.stream, w.session, w.isBidi, payload);
      w.session in d.sessions && !Refused(d.events, w)
    ensures var d := NewStream(c, w.stream, w.session, w.isBidi, payload);
      && w.stream in d.streams && d.streams[w.stream] == Registration(w.session, w.isBidi)
      && (d.sessions[w.session].phase.Pending? ==>
            && d.events == c.events && w.stream in d.sessions[w.session].entries
            && d.sessions[w.session].entries[w.stream] == S.Entry(w.isBidi, payload, false))
      && (!d.sessions[w.session].phase.Pending? ==>
            d.events == c.events + [StreamEvent(w.session, S.Open(w.isBidi, w.stream))]
                      + if payload == [] then [] else [StreamEvent(w.session, S.Data(w.isBidi, w.stream, payload))])
  {
    hide Associate, Hold, Accept, S.CheckReceivedStream, S.AddReceivedStream;
    var start := c.(streams := c.streams[w.stream := Registration(w.session, w.isBidi)]);
    AssociateStep(start, w);
    RefusalSeen(c.events, w);
    var (e, outcome) := Associate(start, w.stream, w.session, w.isBidi);
    match outcome {
      case Gone =>
      case Overflow =>
      case Buffered =>
        HoldStep(e, w, S.Entry(w.isBidi, [], false), payload);
        assert [] + payload == payload;
      case Joined =>
        AddStreamKeeps(e.sessions[w.session], w.isBidi);
        AcceptStep(Emit(Put(e, w.session, S.AddReceivedStream(e.sessions[w.session], w.isBidi)),
                        [StreamEvent(w.session, S.Open(w.isBidi, w.stream))]),
                   w, w.isBidi, payload);
    }
  }

  /** Octets for a stream that is open. */
  lemma GivenStep(c: Conn, d: Conn, w: Who, payload: bytes, data: bytes)
    requires SeenOf(Mine(c.events, w), w.stream, w.isBidi) == Running(payload)
    requires d.events == c.events + if data == [] then []
        else [StreamEvent(w.session, S.Data(w.isBidi, w.stream, data))]
    ensures SeenOf(Mine(d.events, w), w.stream, w.isBidi) == Running(payload + data)
    ensures A.Charge(Role.Server, w.session, w.stream, d.events)
        == A.Charge(Role.Server, w.session, w.stream, c.events) + |data|
  {
    hide Mine, A.Charge, SeenOf;
    if data == [] {
      assert payload + data == payload && c.events + [] == c.events;
    } else {
      NewEvent(c.events, S.Data(w.isBidi, w.stream, data), w);
    }
  }

  predicate Peer(c: Conn, w: Who) {
    c.role.Server? && w.stream % 4 == if w.isBidi then 0 else 2
  }

  ghost predicate Phased(c: Conn, w: Who, established: bool) {
    w.session in c.sessions ==> (c.sessions[w.session].phase.Pending? <==> !established)
  }

  lemma EndStep(c: Conn, w: Who)
    requires Peer(c, w)
    ensures var d := Emit(EndStream(c, w.session, w.stream, w.isBidi),
                          [StreamEvent(w.session, S.End(w.isBidi, w.stream))]);
      w.stream !in d.streams && d.events == c.events + [StreamEvent(w.session, S.End(w.isBidi, w.stream))]
      && (w.session in d.sessions <==> w.session in c.sessions)
  {
    hide S.OnRemoteStreamClosed, S.Untrack;
  }

  /** More octets, and perhaps the end, of a stream that has joined. */
  lemma StreamDataStep(c: Conn, w: Who, part: bytes, data: bytes, fin: bool, established: bool, head: nat)
    requires Peer(c, w) && ConnShape(c, w, part, false, true, established, head)
    requires w.session in c.sessions && Phased(c, w, established)
    requires var d := StreamData(c, w.stream, data, fin); w.session in d.sessions && !Refused(d.events, w)
    ensures ConnShape(StreamData(c, w.stream, data, fin), w, part + data, fin, true, established, head)
  {
    hide Mine, A.Charge, SeenOf, Hold, Accept, EndStream, S.CheckReceivedData;
    assert (part + data)[head..] == part[head..] + data;
    if !established {
      HoldFirst(c, w, data, fin);
      HoldStep(c, w, S.Entry(w.isBidi, part[head..], false), data);
    } else {
      AcceptFirst(c, w, data, fin);
      AcceptStep(c, w, w.isBidi, data);
      var d := Accept(c, w.session, w.stream, w.isBidi, data);
      GivenStep(c, d, w, part[head..], data);
      if fin {
        EndStep(d, w);
        NewEvent(d.events, S.End(w.isBidi, w.stream), w);
      }
    }
  }

  /** A refusal inside is seen outside. */
  lemma HoldFirst(c: Conn, w: Who, data: bytes, fin: bool)
    requires Peer(c, w) && w.session in c.sessions && c.sessions[w.session].phase.Pending?
    requires w.stream in c.streams && c.streams[w.stream].session == w.session
    ensures Refused(Hold(c, w.session, w.stream, data).events, w)
        ==> Refused(StreamData(c, w.stream, data, fin).events, w)
  {
    hide S.AppendData, S.MarkFin;
  }

  lemma AcceptFirst(c: Conn, w: Who, data: bytes, fin: bool)
    requires Peer(c, w) && w.session in c.sessions && !c.sessions[w.session].phase.Pending?
    requires w.stream in c.streams && c.streams[w.stream] == Registration(w.session, w.isBidi)
    ensures w.session in StreamData(c, w.stream, data, fin).sessions
        ==> w.session in Accept(c, w.session, w.stream, w.isBidi, data).sessions
  {
    hide S.CheckReceivedData, S.AddAndTrack, S.OnRemoteStreamClosed, S.Untrack;
  }

  /** The header is complete. */
  lemma JoinStep(c: Conn, w: Who, part: bytes, buf: bytes, fin: bool, established: bool, head: nat)
    requires Peer(c, w) && ConnShape(c, w, part, false, false, established, head) && head <= |buf|
    requires var d := NewStream(c, w.stream, w.session, w.isBidi, buf[head..]);
      w.session in d.sessions && !Refused(d.events, w) && Phased(d, w, established)
    requires fin ==> var d := StreamData(NewStream(c, w.stream, w.session, w.isBidi, buf[head..]), w.stream, [], true);
      w.session in d.sessions && !Refused(d.events, w)
    ensures var d := NewStream(c, w.stream, w.session, w.isBidi, buf[head..]);
      ConnShape(if fin then StreamData(d, w.stream, [], true) else d, w, buf, fin, true, established, head)
  {
    hide Mine, A.Charge, SeenOf, NewStream, StreamData;
    var d := NewStream(c, w.stream, w.session, w.isBidi, buf[head..]);
    NewStreamStep(c, w, buf[head..]);
    if established {
      var open := c.(events := c.events + [StreamEvent(w.session, S.Open(w.isBidi, w.stream))]);
      NewEvent(c.events, S.Open(w.isBidi, w.stream), w);
      NothingSeen(w.stream, w.isBidi);
      GivenStep(open, d, w, [], buf[head..]);
      assert [] + buf[head..] == buf[head..];
    }
    assert ConnShape(d, w, buf, false, true, established, head);
    if fin {
      C.NewStreamRole(c, w.stream, w.session, w.isBidi, buf[head..]);
      StreamDataStep(d, w, buf, [], true, established, head);
      assert buf + [] == buf;
    }
  }

  lemma NothingSeen(stream: nat, isBidi: bool)
    ensures See(SeenOf([], stream, isBidi), stream, isBidi, S.Open(isBidi, stream)) == Running([])
  {
  }

  // ---- The session is established ---------------------------------------------------------------

  lemma EventsOfMine(events: seq<Event>, w: Who, entry: S.Entry)
    ensures var after := events + Wrap(w.session, S.EventsOf(w.stream, entry));
      && Mine(after, w) == Mine(events, w) + S.EventsOf(w.stream, entry)
      && A.Charge(Role.Server, w.session, w.stream, after)
          == A.Charge(Role.Server, w.session, w.stream, events) + |entry.data|
  {
    hide Mine, A.Charge, SeenOf;
    var e1, e2, e3 := S.Open(entry.isBidi, w.stream), S.Data(entry.isBidi, w.stream, entry.data),
        S.End(entry.isBidi, w.stream);
    var evs1 := events + [StreamEvent(w.session, e1)];
    var evs2 := if entry.data == [] then evs1 else evs1 + [StreamEvent(w.session, e2)];
    NewEvent(events, e1, w);
    NewEvent(evs1, e2, w);
    NewEvent(evs2, e3, w);
    assert events + Wrap(w.session, S.EventsOf(w.stream, entry))
        == if entry.fin then evs2 + [StreamEvent(w.session, e3)] else evs2;
  }

  lemma OthersMine(events: seq<Event>, w: Who, stream: nat, entry: S.Entry)
    requires stream != w.stream
    ensures Quiet(events, events + Wrap(w.session, S.EventsOf(stream, entry)), w)
  {
    QuietEvents(events, Wrap(w.session, S.EventsOf(stream, entry)), w);
  }

  /** Of everything that is delivered, this stream's share is its own entry. */
  ghost predicate Share(w: Who, s: S.Session, ids: seq<nat>, events: seq<Event>, d: S.Delivery) {
    var after := events + Wrap(w.session, d.events);
    if w.stream in s.entries && w.stream in ids then
      && Mine(after, w) == Mine(events, w) + S.EventsOf(w.stream, s.entries[w.stream])
      && A.Charge(Role.Server, w.session, w.stream, after)
         == A.Charge(Role.Server, w.session, w.stream, events) + |s.entries[w.stream].data|
      && (w.stream in ClosedIds(d.closed) <==> s.entries[w.stream].fin)
    else
      Quiet(events, after, w) && w.stream !in ClosedIds(d.closed)
  }

  lemma {:induction false} DeliveredShare(w: Who, s: S.Session, ids: seq<nat>, events: seq<Event>)
    ensures !S.DeliverFrom(s, ids).violation ==> Share(w, s, ids, events, S.DeliverFrom(s, ids))
    decreases |ids|
  {
    hide Mine, A.Charge, S.DeliveredSession, S.OpenedSession, S.CheckReceivedStream, S.CheckReceivedData, ClosedIds,
        Wrap, S.EventsOf;
    D.OneClosed(w.stream, w.isBidi);
    if ids == [] {
      D.NothingDelivered(w.session, events);
    } else if ids[0] !in s.entries {
      DeliveredShare(w, s, ids[1..], events);
    } else {
      var stream, entry, t := ids[0], s.entries[ids[0]], S.DropEntry(s, ids[0]);
      if S.CheckReceivedStream(t, entry.isBidi)
         && (entry.data == [] || S.CheckReceivedData(S.OpenedSession(t, stream, entry), |entry.data|)) {
        var next, part := S.DeliveredSession(t, stream, entry), S.EventsOf(stream, entry);
        var rest, now := S.DeliverFrom(next, ids[1..]), events + Wrap(w.session, part);
        S.OpenedAssociates(t, stream, entry);
        DeliveredShare(w, next, ids[1..], now);
        D.WrapConcat(w.session, part, rest.events);
        assert events + (Wrap(w.session, part) + Wrap(w.session, rest.events)) == now + Wrap(w.session, rest.events);
        D.OneClosed(stream, entry.isBidi);
        D.ClosedIdsConcat(if entry.fin then [(stream, entry.isBidi)] else [], rest.closed);
        if stream == w.stream {
          EventsOfMine(events, w, entry);
        } else {
          OthersMine(events, w, stream, entry);
        }
      }
    }
  }

  /** SETTINGS and the response have come: the stream gets all that waited for it. */
  lemma EstablishStep(c: Conn, setup: Setup, w: Who, part: bytes, fin: bool, joined: bool, head: nat)
    requires Peer(c, w) && ConnShape(c, w, part, fin, joined, false, head) && A.SessionInv(c, w.session)
    requires w.session in c.sessions && c.sessions[w.session].phase.Pending?
        && w.session in K.Establish(c, w.session, setup).sessions
    ensures ConnShape(K.Establish(c, w.session, setup), w, part, fin, joined, true, head)
  {
    hide Mine, A.Charge, A.Total, SeenOf, S.DeliverFrom, ClosedIds, Start, Wrap;
    var s := Start(c.sessions[w.session], setup);
    var d, d0 := S.Deliver(s), K.Establish(c, w.session, setup);
    C.StartEffect(c.sessions[w.session], setup);
    StartKeepsOrder(c.sessions[w.session], setup);
    var evs := c.events + [Event.SessionEstablished(w.session)];
    QuietEvents(c.events, [Event.SessionEstablished(w.session)], w);
    DeliveredShare(w, s.(order := []), s.order, evs);
    S.DeliverFromFrame(s.(order := []), s.order);
    assert !d.violation;
    QuietEvents(evs + Wrap(w.session, d.events), Datagrams(w.session, d.session.datagrams), w);
    assert d0.events == evs + Wrap(w.session, d.events) + Datagrams(w.session, d.session.datagrams);
    if joined {
      DeliveredSeen(w.stream, s.entries[w.stream]);
      assert [] + S.EventsOf(w.stream, s.entries[w.stream]) == S.EventsOf(w.stream, s.entries[w.stream]);
    }
  }

  lemma StartKeepsOrder(s: S.Session, setup: Setup)
    ensures Start(s, setup).order == s.order
  {
  }
}
