/** The life of a WebTransport session over any sequence of inputs. */
module WtLifecycle {
  import opened Bytes
  import S = WtSession
  import opened WtConnection

  /** What the application has been told about a session so far. */
  datatype Life = Silent | Running | Over | Broken

  /** A session may be reported as established once, and as closed once, in that order. */
  function Told(life: Life, e: Event, id: nat): Life {
    if e == SessionEstablished(id) then if life.Silent? then Running else Broken
    else if e.SessionClosed? && e.session == id then if life.Over? then Broken else if life.Broken? then Broken
        else Over
    else life
  }

  function LifeOf(events: seq<Event>, id: nat): Life {
    if events == [] then Silent else Told(LifeOf(events[..|events| - 1], id), events[|events| - 1], id)
  }

  /** Unknown, pending, established, draining, gone. */
  function Stage(c: Conn, id: nat): nat {
    if id in c.closed then 4
    else if id !in c.sessions then 0
    else match c.sessions[id].phase
      case Pending => 1
      case Established => 2
      case Draining => 3
      case Closed => 4
  }

  ghost predicate LifeInv(c: Conn, id: nat) {
    var life := LifeOf(c.events, id);
    && !(id in c.sessions && id in c.closed)
    && (id in c.sessions ==> !c.sessions[id].phase.Closed?)
    && match Stage(c, id)
       case 0 => life.Silent?
       case 1 => life.Silent?
       case 2 => life.Running?
       case 3 => life.Running? || life.Silent?
       case _ => life.Over? || life.Silent?
  }

  // ---- Events that are not about the life of a session ---------------------------

  predicate Plain(e: Event) {
    !e.SessionEstablished? && !e.SessionClosed?
  }

  lemma {:induction false} PlainEvents(events: seq<Event>, more: seq<Event>, id: nat)
    requires forall i :: 0 <= i < |more| ==> Plain(more[i])
    ensures LifeOf(events + more, id) == LifeOf(events, id)
    decreases |more|
  {
    if more == [] {
      assert events + more == events;
    } else {
      var n := |more| - 1;
      assert (events + more)[..|events + more| - 1] == events + more[..n];
      PlainEvents(events, more[..n], id);
    }
  }

  lemma OneEvent(events: seq<Event>, e: Event, id: nat)
    ensures LifeOf(events + [e], id) == Told(LifeOf(events, id), e, id)
  {
    assert (events + [e])[..|events|] == events;
  }

  // ---- Building blocks ------------------------------------------------------------

  /** `d` came from `c` without anything happening to the life of `id`. */
  ghost predicate Same(c: Conn, d: Conn, id: nat) {
    Stage(d, id) == Stage(c, id) && LifeOf(d.events, id) == LifeOf(c.events, id)
    && (id in d.sessions <==> id in c.sessions) && (id in d.closed <==> id in c.closed)
    && (id in d.sessions ==> d.sessions[id].phase == c.sessions[id].phase)
  }

  lemma TerminateLife(c: Conn, gone: nat, id: nat)
    requires LifeInv(c, id)
    ensures LifeInv(Terminate(c, gone), id) && Stage(c, id) <= Stage(Terminate(c, gone), id)
    ensures id != gone ==> Same(c, Terminate(c, gone), id)
    ensures gone !in Terminate(c, gone).sessions
  {
    if gone in c.sessions {
      OneEvent(c.events, SessionClosed(gone, c.sessions[gone].associated, c.sessions[gone].order), id);
    }
  }

  lemma BuryLife(c: Conn, gone: nat, id: nat)
    requires LifeInv(c, id) && gone in c.sessions && c.sessions[gone].phase.Pending?
    ensures LifeInv(Bury(c, gone), id) && Stage(c, id) <= Stage(Bury(c, gone), id)
  {
  }

  lemma SameEmit(c: Conn, more: seq<Event>, id: nat)
    requires forall i :: 0 <= i < |more| ==> Plain(more[i])
    ensures Same(c, Emit(c, more), id)
  {
    PlainEvents(c.events, more, id);
  }

  lemma SamePut(c: Conn, at: nat, s: S.Session, id: nat)
    requires at in c.sessions && s.phase == c.sessions[at].phase
    ensures Same(c, Put(c, at, s), id)
  {
  }

  /** The invariant only sees the stage and the life. */
  lemma SameKeeps(c: Conn, d: Conn, id: nat)
    requires LifeInv(c, id) && Same(c, d, id)
    ensures LifeInv(d, id) && Stage(c, id) <= Stage(d, id)
  {
  }

  ghost predicate Good(c: Conn, d: Conn, id: nat) {
    LifeInv(d, id) && Stage(c, id) <= Stage(d, id)
  }

  // ---- Inputs -----------------------------------------------------------------------

  lemma AcceptLife(c: Conn, at: nat, stream: nat, isBidi: bool, data: bytes, id: nat)
    requires LifeInv(c, id)
    ensures Good(c, Accept(c, at, stream, isBidi, data), id)
  {
    hide LifeInv, S.CheckReceivedData, Terminate;
    TerminateLife(c, at, id);
    if at in c.sessions {
      SamePut(c, at, S.AddAndTrack(c.sessions[at], stream, |data|), id);
      var d := Put(c, at, S.AddAndTrack(c.sessions[at], stream, |data|));
      SameKeeps(c, d, id);
      SameEmit(d, [StreamEvent(at, S.Data(isBidi, stream, data))], id);
      SameKeeps(d, Emit(d, [StreamEvent(at, S.Data(isBidi, stream, data))]), id);
    } else {
      SameEmit(c, [StreamEvent(at, S.Data(isBidi, stream, data))], id);
      SameKeeps(c, Emit(c, [StreamEvent(at, S.Data(isBidi, stream, data))]), id);
    }
    SameKeeps(c, c, id);
  }

  lemma HoldLife(c: Conn, at: nat, stream: nat, data: bytes, id: nat)
    requires LifeInv(c, id) && at in c.sessions
    ensures Good(c, Hold(c, at, stream, data), id)
    ensures at in Hold(c, at, stream, data).sessions
  {
    hide LifeInv, S.AppendData;
    SameKeeps(c, c, id);
    AppendKeepsPhase(c.sessions[at], stream, data);
    var s := S.AppendData(c.sessions[at], stream, data);
    if s.Some? {
      SamePut(c, at, s.value, id);
      SameKeeps(c, Put(c, at, s.value), id);
    } else {
      var d := Unregister(Put(c, at, S.DropEntry(c.sessions[at], stream)), {stream});
      assert Same(c, d, id);
      SameKeeps(c, d, id);
      SameEmit(d, [Rejected(stream, false)], id);
      SameKeeps(d, Emit(d, [Rejected(stream, false)]), id);
    }
  }

  lemma AppendKeepsPhase(s: S.Session, stream: nat, data: bytes)
    ensures var r := S.AppendData(s, stream, data); r.Some? ==> r.value.phase == s.phase
  {
  }

  /** Associating a stream creates a pending session at most, and never one that is gone. */
  lemma AssociateLife(c: Conn, stream: nat, at: nat, isBidi: bool, id: nat)
    requires LifeInv(c, id)
    ensures Good(c, Associate(c, stream, at, isBidi).0, id)
  {
    hide PendingCount;
  }

  lemma NewStreamLife(c: Conn, stream: nat, at: nat, isBidi: bool, payload: bytes, id: nat)
    requires LifeInv(c, id)
    ensures Good(c, NewStream(c, stream, at, isBidi, payload), id)
  {
    hide LifeInv, Associate, Accept, Hold, Terminate, S.CheckReceivedStream, S.AddReceivedStream;
    var b := c.(streams := c.streams[stream := Registration(at, isBidi)]);
    SameKeeps(c, b, id);
    AssociateLife(b, stream, at, isBidi, id);
    var (d, outcome) := Associate(b, stream, at, isBidi);
    var u := Unregister(d, {stream});
    SameKeeps(d, u, id);
    ForgetLife(d, stream, Rejected(stream, outcome.Gone?), id);
    if at in d.sessions {
      if outcome.Buffered? {
        HoldLife(d, at, stream, payload, id);
      }
      if outcome.Joined? {
        TerminateLife(u, at, id);
        AddKeepsPhase(d.sessions[at], isBidi);
        SamePut(d, at, S.AddReceivedStream(d.sessions[at], isBidi), id);
        var e := Put(d, at, S.AddReceivedStream(d.sessions[at], isBidi));
        SameKeeps(d, e, id);
        SameEmit(e, [StreamEvent(at, S.Open(isBidi, stream))], id);
        SameKeeps(e, Emit(e, [StreamEvent(at, S.Open(isBidi, stream))]), id);
        AcceptLife(Emit(e, [StreamEvent(at, S.Open(isBidi, stream))]), at, stream, isBidi, payload, id);
      }
    }
  }

  lemma AddKeepsPhase(s: S.Session, isBidi: bool)
    ensures S.AddReceivedStream(s, isBidi).phase == s.phase
  {
  }

  lemma EndStreamLife(c: Conn, at: nat, stream: nat, isBidi: bool, id: nat)
    ensures Same(c, EndStream(c, at, stream, isBidi), id)
  {
  }

  lemma StreamDataLife(c: Conn, stream: nat, data: bytes, fin: bool, id: nat)
    requires LifeInv(c, id)
    ensures Good(c, StreamData(c, stream, data, fin), id)
  {
    hide LifeInv, Accept, Hold, EndStream, S.CheckReceivedData;
    SameKeeps(c, c, id);
    if stream in c.streams {
      var r := c.streams[stream];
      if r.session in c.sessions {
        HoldLife(c, r.session, stream, data, id);
        var h := Hold(c, r.session, stream, data);
        SamePut(h, r.session, S.MarkFin(h.sessions[r.session], stream), id);
        SameKeeps(h, Put(h, r.session, S.MarkFin(h.sessions[r.session], stream)), id);
      }
      AcceptLife(c, r.session, stream, r.isBidi, data, id);
      var d := Accept(c, r.session, stream, r.isBidi, data);
      EndStreamLife(d, r.session, stream, r.isBidi, id);
      var e := EndStream(d, r.session, stream, r.isBidi);
      SameKeeps(d, e, id);
      SameEmit(e, [StreamEvent(r.session, S.End(r.isBidi, stream))], id);
      SameKeeps(e, Emit(e, [StreamEvent(r.session, S.End(r.isBidi, stream))]), id);
    }
  }

  lemma ResetKeepsPhase(s: S.Session, role: Role, stream: nat, isBidi: bool, n: nat)
    ensures ResetSession(s, role, stream, isBidi, n).phase == s.phase
  {
  }

  lemma ResetLife(c: Conn, stream: nat, finalSize: nat, id: nat)
    requires LifeInv(c, id)
    ensures Good(c, Reset(c, stream, finalSize), id)
  {
    hide LifeInv, Terminate, S.CheckReceivedData, Residual, ResetSession, Forget, Unregister, Emit, Put;
    SameKeeps(c, c, id);
    TerminateLife(c, stream, id);
    ForgetEntryLife(c, stream, id);
    if stream !in c.sessions && stream in c.streams {
      var r := c.streams[stream];
      TerminateLife(c, r.session, id);
      var n := Residual(c, stream, finalSize);
      var d := c;
      if r.session in c.sessions {
        ResetKeepsPhase(c.sessions[r.session], c.role, stream, r.isBidi, n);
        d := Put(c, r.session, ResetSession(c.sessions[r.session], c.role, stream, r.isBidi, n));
        PutLife(c, r.session, ResetSession(c.sessions[r.session], c.role, stream, r.isBidi, n), id);
      }
      ForgetLife(d, stream, StreamReset(r.session, stream, finalSize), id);
    }
  }

  lemma ForgetEntryLife(c: Conn, stream: nat, id: nat)
    requires LifeInv(c, id)
    ensures Good(c, Forget(c, stream), id)
  {
    hide LifeInv, Filter;
    assert Same(c, Forget(c, stream), id);
    SameKeeps(c, Forget(c, stream), id);
  }

  lemma OneChunkLife(c: Conn, stream: nat, at: nat, payload: bytes, id: nat)
    requires LifeInv(c, id)
    ensures Good(c, OneChunk(c, stream, at, payload), id)
  {
    hide LifeInv, NewStream;
    NewStreamLife(c, stream, at, false, payload, id);
    var d := NewStream(c, stream, at, false, payload);
    ForgetLife(d, stream, StreamEvent(at, S.End(false, stream)), id);
  }

  lemma PutLife(c: Conn, at: nat, s: S.Session, id: nat)
    requires LifeInv(c, id) && at in c.sessions && s.phase == c.sessions[at].phase
    ensures Good(c, Put(c, at, s), id)
  {
    hide LifeInv;
    SamePut(c, at, s, id);
    SameKeeps(c, Put(c, at, s), id);
  }

  lemma ForgetLife(c: Conn, stream: nat, e: Event, id: nat)
    requires LifeInv(c, id) && Plain(e)
    ensures Good(c, Emit(Unregister(c, {stream}), [e]), id)
  {
    hide LifeInv;
    var u := Unregister(c, {stream});
    SameKeeps(c, u, id);
    SameEmit(u, [e], id);
    SameKeeps(u, Emit(u, [e]), id);
  }

  /** Delivery leaves the phase alone. */
  lemma {:induction false} RestoreKeepsPhase(s: S.Session, ids: seq<nat>)
    ensures S.RestoreAll(s, ids).phase == s.phase
    decreases |ids|
  {
    if ids != [] {
      if ids[0] in s.entries {
        RestoreKeepsPhase(S.RestoreEntry(S.DropEntry(s, ids[0]), ids[0], s.entries[ids[0]]), ids[1..]);
      } else {
        RestoreKeepsPhase(s, ids[1..]);
      }
    }
  }

  lemma DeliveredKeepsPhase(s: S.Session, stream: nat, entry: S.Entry)
    ensures S.OpenedSession(s, stream, entry).phase == s.phase
    ensures S.DeliveredSession(s, stream, entry).phase == s.phase
  {
  }

  lemma {:induction false} DeliverKeepsPhase(s: S.Session, ids: seq<nat>)
    ensures S.DeliverFrom(s, ids).session.phase == s.phase
    decreases |ids|
  {
    hide S.DeliveredSession, S.OpenedSession, S.CheckReceivedStream, S.CheckReceivedData;
    if ids != [] {
      if ids[0] !in s.entries {
        DeliverKeepsPhase(s, ids[1..]);
      } else {
        var stream, entry, t := ids[0], s.entries[ids[0]], S.DropEntry(s, ids[0]);
        DeliveredKeepsPhase(t, stream, entry);
        RestoreKeepsPhase(S.RestoreEntry(t, stream, entry), ids[1..]);
        RestoreKeepsPhase(S.OpenedSession(t, stream, entry), ids[1..]);
        DeliverKeepsPhase(S.DeliveredSession(t, stream, entry), ids[1..]);
      }
    }
  }

  lemma FirstReport(c: Conn, at: nat, s: S.Session, id: nat)
    requires LifeInv(c, id) && at in c.sessions && c.sessions[at].phase.Pending? && s.phase.Established?
    ensures Good(c, Emit(Put(c, at, s), [SessionEstablished(at)]), id)
  {
    OneEvent(c.events, SessionEstablished(at), id);
  }

  lemma PlainLife(c: Conn, more: seq<Event>, gone: set<nat>, id: nat)
    requires LifeInv(c, id) && forall i :: 0 <= i < |more| ==> Plain(more[i])
    ensures Good(c, Unregister(Emit(c, more), gone), id)
  {
    PlainEvents(c.events, more, id);
  }

  /** Establishing reports the session once; a violation on the way ends it at once. */
  lemma EstablishLife(c: Conn, at: nat, setup: Setup, id: nat)
    requires LifeInv(c, id)
    ensures Good(c, Establish(c, at, setup), id)
  {
    hide Terminate, S.Deliver, Start, ClosedIds, Wrap, Datagrams, LifeInv, Stage;
    SameKeeps(c, c, id);
    if at in c.sessions && c.sessions[at].phase.Pending? {
      var d := S.Deliver(Start(c.sessions[at], setup));
      StartDeliver(c.sessions[at], setup);
      var b := Emit(Put(c, at, d.session), [SessionEstablished(at)]);
      FirstReport(c, at, d.session, id);
      PlainLife(b, Wrap(at, d.events), ClosedIds(d.closed), id);
      var e := Unregister(Emit(Put(c, at, d.session), [SessionEstablished(at)] + Wrap(at, d.events)),
                          ClosedIds(d.closed));
      assert e.events == b.events + Wrap(at, d.events);
      TerminateLife(e, at, id);
      var f := Put(e, at, d.session.(datagrams := []));
      PutLife(e, at, d.session.(datagrams := []), id);
      EmitLife(f, Datagrams(at, d.session.datagrams), id);
    }
  }

  lemma EmitLife(c: Conn, more: seq<Event>, id: nat)
    requires LifeInv(c, id) && forall i :: 0 <= i < |more| ==> Plain(more[i])
    ensures Good(c, Emit(c, more), id)
  {
    PlainEvents(c.events, more, id);
  }

  lemma StartDeliver(s: S.Session, setup: Setup)
    ensures S.Deliver(Start(s, setup)).session.phase == S.Established
  {
    hide S.DeliverFrom;
    var t := Start(s, setup);
    DeliverKeepsPhase(t.(order := []), t.order);
  }

  lemma DrainLife(c: Conn, at: nat, id: nat)
    requires LifeInv(c, id)
    ensures Good(c, Drain(c, at), id)
  {
    hide LifeInv, LifeOf, Stage;
    SameKeeps(c, c, id);
    if at in c.sessions && (c.sessions[at].phase.Established? || c.sessions[at].phase.Pending?) {
      DrainPhase(c, at, id);
      EmitLife(Put(c, at, c.sessions[at].(phase := S.Draining)), [SessionDraining(at)], id);
    }
  }

  lemma DrainPhase(c: Conn, at: nat, id: nat)
    requires LifeInv(c, id) && at in c.sessions
    requires c.sessions[at].phase.Established? || c.sessions[at].phase.Pending?
    ensures Good(c, Put(c, at, c.sessions[at].(phase := S.Draining)), id)
  {
    hide LifeOf;
  }

  lemma DatagramLife(c: Conn, at: nat, payload: bytes, id: nat)
    requires LifeInv(c, id)
    ensures Good(c, FeedDatagram(c, at, payload), id)
  {
    hide PendingCount, LifeInv, Stage, S.BufferDatagram;
    SameKeeps(c, c, id);
    BufferKeepsPhase(payload);
    if at in c.sessions {
      BufferDatagramKeepsPhase(c.sessions[at], payload);
      PutLife(c, at, S.BufferDatagram(c.sessions[at], payload), id);
      EmitLife(c, [Datagram(at, payload)], id);
    } else if at !in c.closed {
      PutNewLife(c, at, S.BufferDatagram(S.NEW, payload), id);
    }
  }

  lemma BufferKeepsPhase(payload: bytes)
    ensures S.BufferDatagram(S.NEW, payload).phase == S.Pending
  {
  }

  lemma BufferDatagramKeepsPhase(s: S.Session, payload: bytes)
    ensures S.BufferDatagram(s, payload).phase == s.phase
  {
  }

  /** A session that was never there starts pending. */
  lemma PutNewLife(c: Conn, at: nat, s: S.Session, id: nat)
    requires LifeInv(c, id) && at !in c.sessions && at !in c.closed && s.phase.Pending?
    ensures Good(c, Put(c, at, s), id)
  {
  }

  /** Every input moves a session forward through its stages or leaves it, and what the
      application is told stays in order. */
  lemma HandleLife(c: Conn, setup: Setup, input: Input, id: nat)
    requires LifeInv(c, id)
    ensures Good(c, Handle(c, setup, input), id)
  {
    hide LifeInv, NewStream, OneChunk, StreamData, Reset, Establish, Terminate, Bury, Drain, FeedDatagram;
    SameKeeps(c, c, id);
    match input {
      case InNewStream(stream, session, isBidi, payload) => NewStreamLife(c, stream, session, isBidi, payload, id);
      case InOneChunk(stream, session, payload) => OneChunkLife(c, stream, session, payload, id);
      case InStreamData(stream, data, fin) => StreamDataLife(c, stream, data, fin, id);
      case InReset(stream, finalSize) => ResetLife(c, stream, finalSize, id);
      case InConnect(session) => ConnectLife(c, session, id);
      case InEstablish(session) => EstablishLife(c, session, setup, id);
      case InRefuse(session) =>
        if session in c.sessions && c.sessions[session].phase.Pending? {
          BuryLife(c, session, id);
        }
      case InConnectEnded(session) =>
        TerminateLife(c, session, id);
        if session in c.sessions && c.sessions[session].phase.Pending? {
          BuryLife(c, session, id);
        }
      case InDrain(session) => DrainLife(c, session, id);
      case InClose(session) => TerminateLife(c, session, id);
      case InRegisterLocal(stream, session) => RegisterLife(c, stream, session, id);
      case InDatagram(session, payload) => DatagramLife(c, session, payload, id);
      case InConsumed(session, n) => ConsumedLife(c, session, n, id);
    }
  }

  lemma ConnectLife(c: Conn, at: nat, id: nat)
    requires LifeInv(c, id)
    ensures Good(c, Connect(c, at), id)
  {
  }

  lemma RegisterLife(c: Conn, stream: nat, at: nat, id: nat)
    requires LifeInv(c, id)
    ensures Good(c, RegisterLocal(c, stream, at), id)
  {
  }

  lemma ConsumedLife(c: Conn, at: nat, n: nat, id: nat)
    requires LifeInv(c, id)
    ensures Good(c, Consumed(c, at, n), id)
  {
  }

  // ---- All runs ---------------------------------------------------------------------

  /** Over any inputs from a fresh connection, each session is reported as established at most
      once and as closed at most once, in that order. */
  lemma {:induction false} LifeInOrder(role: Role, goaway: Option<nat>, setup: Setup, inputs: seq<Input>, id: nat)
    ensures LifeInv(HandleAll(Fresh(role, goaway), setup, inputs), id)
    ensures LifeOf(HandleAll(Fresh(role, goaway), setup, inputs).events, id) != Broken
    decreases |inputs|
  {
    hide Handle;
    if inputs != [] {
      var n := |inputs| - 1;
      LifeInOrder(role, goaway, setup, inputs[..n], id);
      HandleLife(HandleAll(Fresh(role, goaway), setup, inputs[..n]), setup, inputs[n], id);
    }
  }

  /** A session only ever moves forward: pending, established, draining, gone; and once it is
      gone no stream, datagram or CONNECT brings it back. */
  lemma {:induction false} NeverBack(role: Role, goaway: Option<nat>, setup: Setup, inputs: seq<Input>, m: nat, id: nat)
    requires m <= |inputs|
    ensures var c, d := HandleAll(Fresh(role, goaway), setup, inputs[..m]),
        HandleAll(Fresh(role, goaway), setup, inputs);
      && Stage(c, id) <= Stage(d, id)
      && (id in c.closed ==> id in d.closed && id !in d.sessions)
    decreases |inputs|
  {
    hide Handle;
    var n := |inputs| - 1;
    LifeInOrder(role, goaway, setup, inputs, id);
    if m == |inputs| {
      assert inputs[..m] == inputs;
    } else {
      assert inputs[..n][..m] == inputs[..m];
      NeverBack(role, goaway, setup, inputs[..n], m, id);
      LifeInOrder(role, goaway, setup, inputs[..n], id);
      HandleLife(HandleAll(Fresh(role, goaway), setup, inputs[..n]), setup, inputs[n], id);
    }
  }
}
