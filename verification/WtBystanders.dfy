/** Inputs about other streams and other sessions leave what a connection holds of one stream. */
module WtBystanders {
  import opened Bytes
  import opened WtEarlyStream
  import opened WtConnection
  import opened WtStreamView
  import K = WtConnection
  import A = WtAccounting
  import C = WtConservation
  import D = WtDelivery
  import S = WtSession

  /** Not about this stream, nor the establishment of its session. */
  predicate Foreign(input: Input, w: Who) {
    match input
    case InNewStream(stream, _, _, _) => stream != w.stream
    case InOneChunk(stream, _, _) => stream != w.stream
    case InStreamData(stream, _, _) => stream != w.stream
    case InReset(stream, _) => stream != w.stream
    case InRegisterLocal(stream, _) => stream != w.stream
    case InEstablish(session) => session != w.session
    case _ => true
  }

  predicate Holds(c: Conn, w: Who) {
    w.stream in c.streams && c.streams[w.stream].session == w.session
  }

  /** From `c` to `d` nothing changed for the stream, as long as its session is there. */
  ghost predicate Apart(c: Conn, d: Conn, w: Who) {
    && Quiet(c.events, d.events, w)
    && (w.stream in d.streams ==> w.stream in c.streams && d.streams[w.stream] == c.streams[w.stream])
    && (w.session in c.sessions && w.session in d.sessions ==>
          && (Holds(c, w) ==> w.stream in d.streams)
          && (w.stream in c.sessions[w.session].entries ==>
                && w.stream in d.sessions[w.session].entries
                && d.sessions[w.session].entries[w.stream] == c.sessions[w.session].entries[w.stream]))
    && (w.session in d.sessions && w.stream in d.sessions[w.session].entries ==>
          w.session in c.sessions && w.stream in c.sessions[w.session].entries)
    && Claims(c, d, w)
  }

  /** No other session gets hold of the stream. */
  ghost predicate Claims(c: Conn, d: Conn, w: Who) {
    Holds(d, w) ==>
      forall x :: x in d.sessions && x != w.session && w.stream in d.sessions[x].associated ==>
        x in c.sessions && w.stream in c.sessions[x].associated
  }

  ghost predicate Unclaimed(c: Conn, w: Who) {
    forall x :: x in c.sessions && x != w.session && Holds(c, w) ==> w.stream !in c.sessions[x].associated
  }

  lemma Then(c: Conn, mid: Conn, d: Conn, w: Who)
    requires Apart(c, mid, w) && Apart(mid, d, w)
    requires w.session in c.sessions && w.session in d.sessions ==> w.session in mid.sessions
    ensures Apart(c, d, w)
  {
    hide Mine, A.Charge;
  }

  lemma ApartEmit(c: Conn, more: seq<Event>, w: Who)
    requires forall i :: 0 <= i < |more| ==> !Ours(more[i], w)
    ensures Apart(c, Emit(c, more), w)
  {
    hide Mine, A.Charge;
    QuietEvents(c.events, more, w);
  }

  /** What a changed session must keep. */
  predicate Keeps(c: Conn, at: nat, s: S.Session, w: Who) {
    && (at == w.session && at in c.sessions && w.stream in c.sessions[at].entries ==>
          w.stream in s.entries && s.entries[w.stream] == c.sessions[at].entries[w.stream])
    && (at == w.session && w.stream in s.entries ==> at in c.sessions && w.stream in c.sessions[at].entries)
    && (Holds(c, w) && at != w.session && w.stream in s.associated ==>
          at in c.sessions && w.stream in c.sessions[at].associated)
  }

  lemma ApartPut(c: Conn, at: nat, s: S.Session, w: Who)
    requires Keeps(c, at, s, w)
    ensures Apart(c, Put(c, at, s), w)
  {
    hide Mine, A.Charge;
  }

  lemma ApartUnregister(c: Conn, gone: set<nat>, w: Who)
    requires w.stream !in gone || w.stream !in c.streams
    ensures Apart(c, Unregister(c, gone), w)
  {
    hide Mine, A.Charge;
  }

  lemma ApartTerminate(c: Conn, at: nat, w: Who)
    requires Unclaimed(c, w)
    ensures Apart(c, Terminate(c, at), w)
  {
    hide Mine, A.Charge;
    if at in c.sessions {
      QuietEvents(c.events, [SessionClosed(at, c.sessions[at].associated, c.sessions[at].order)], w);
    }
  }

  lemma ApartBury(c: Conn, at: nat, w: Who)
    ensures Apart(c, Bury(c, at), w)
  {
    hide Mine, A.Charge;
  }

  lemma StillUnclaimed(c: Conn, d: Conn, w: Who)
    requires Unclaimed(c, w) && Apart(c, d, w)
    ensures Unclaimed(d, w)
  {
    hide Quiet;
  }

  lemma ApartAccept(c: Conn, at: nat, stream: nat, isBidi: bool, data: bytes, w: Who)
    requires Unclaimed(c, w) && stream != w.stream
    ensures Apart(c, Accept(c, at, stream, isBidi, data), w)
  {
    hide Mine, A.Charge, Terminate, S.CheckReceivedData, Apart;
    var e := StreamEvent(at, S.Data(isBidi, stream, data));
    ApartEmit(c, [], w);
    assert Emit(c, []) == c;
    ApartEmit(c, [e], w);
    if at in c.sessions {
      ApartTerminate(c, at, w);
      var d := Put(c, at, S.AddAndTrack(c.sessions[at], stream, |data|));
      ApartPut(c, at, S.AddAndTrack(c.sessions[at], stream, |data|), w);
      ApartEmit(d, [e], w);
      Then(c, d, Emit(d, [e]), w);
    }
  }

  lemma ApartHold(c: Conn, at: nat, stream: nat, data: bytes, w: Who)
    requires at in c.sessions && stream != w.stream
    ensures Apart(c, Hold(c, at, stream, data), w)
    ensures w.session in c.sessions ==> w.session in Hold(c, at, stream, data).sessions
  {
    hide Mine, A.Charge, Apart;
    var s := S.AppendData(c.sessions[at], stream, data);
    if data == [] {
      ApartEmit(c, [], w);
      assert Emit(c, []) == c;
    } else if s.Some? {
      ApartPut(c, at, s.value, w);
    } else {
      var d := Put(c, at, S.DropEntry(c.sessions[at], stream));
      var e := Unregister(d, {stream});
      ApartPut(c, at, S.DropEntry(c.sessions[at], stream), w);
      ApartUnregister(d, {stream}, w);
      Then(c, d, e, w);
      ApartEmit(e, [Rejected(stream, false)], w);
      Then(c, e, Emit(e, [Rejected(stream, false)]), w);
    }
  }

  lemma ApartSame(c: Conn, w: Who)
    ensures Apart(c, c, w)
  {
    hide Mine, A.Charge;
  }

  lemma ApartRegister(c: Conn, stream: nat, r: Registration, w: Who)
    requires stream != w.stream
    ensures Apart(c, c.(streams := c.streams[stream := r]), w)
  {
    hide Mine, A.Charge;
  }

  lemma ApartAssociate(c: Conn, stream: nat, at: nat, isBidi: bool, w: Who)
    requires stream != w.stream
    ensures var (d, outcome) := Associate(c, stream, at, isBidi);
      Apart(c, d, w) && (w.session in c.sessions ==> w.session in d.sessions)
  {
    hide Apart, PendingCount;
    ApartSame(c, w);
    var (d, outcome) := Associate(c, stream, at, isBidi);
    if at in d.sessions {
      ApartPut(c, at, d.sessions[at], w);
      assert outcome.Joined? || outcome.Buffered? ==> d == Put(c, at, d.sessions[at]);
    }
  }

  lemma ApartNewStream(c: Conn, stream: nat, at: nat, isBidi: bool, payload: bytes, w: Who)
    requires Unclaimed(c, w) && stream != w.stream
    ensures Apart(c, NewStream(c, stream, at, isBidi, payload), w)
  {
    hide Apart, Associate, Hold, Accept, Terminate, S.CheckReceivedStream, S.AddReceivedStream, Unclaimed;
    var start := c.(streams := c.streams[stream := Registration(at, isBidi)]);
    ApartRegister(c, stream, Registration(at, isBidi), w);
    ApartAssociate(start, stream, at, isBidi, w);
    var (e, outcome) := Associate(start, stream, at, isBidi);
    Then(c, start, e, w);
    StillUnclaimed(c, e, w);
    var f := Unregister(e, {stream});
    ApartUnregister(e, {stream}, w);
    StillUnclaimed(e, f, w);
    Then(c, e, f, w);
    match outcome {
      case Gone =>
        ApartEmit(f, [Rejected(stream, true)], w);
        Then(c, f, Emit(f, [Rejected(stream, true)]), w);
      case Overflow =>
        ApartEmit(f, [Rejected(stream, false)], w);
        Then(c, f, Emit(f, [Rejected(stream, false)]), w);
      case Buffered =>
        if at in e.sessions {
          ApartHold(e, at, stream, payload, w);
          Then(c, e, Hold(e, at, stream, payload), w);
        }
      case Joined =>
        if at in e.sessions {
          ApartTerminate(f, at, w);
          Then(c, f, Terminate(f, at), w);
          ApartOpened(c, e, stream, at, isBidi, payload, w);
        }
    }
  }

  lemma ApartOpened(c: Conn, e: Conn, stream: nat, at: nat, isBidi: bool, payload: bytes, w: Who)
    requires Apart(c, e, w) && (w.session in c.sessions ==> w.session in e.sessions) && Unclaimed(e, w)
    requires stream != w.stream && at in e.sessions
    ensures Apart(c, Accept(Emit(Put(e, at, S.AddReceivedStream(e.sessions[at], isBidi)),
                                 [StreamEvent(at, S.Open(isBidi, stream))]),
                            at, stream, isBidi, payload), w)
  {
    hide Apart, Accept, Unclaimed;
    var g := Put(e, at, S.AddReceivedStream(e.sessions[at], isBidi));
    var h := Emit(g, [StreamEvent(at, S.Open(isBidi, stream))]);
    ApartPut(e, at, S.AddReceivedStream(e.sessions[at], isBidi), w);
    Then(c, e, g, w);
    ApartEmit(g, [StreamEvent(at, S.Open(isBidi, stream))], w);
    Then(c, g, h, w);
    StillUnclaimed(e, g, w);
    StillUnclaimed(g, h, w);
    ApartAccept(h, at, stream, isBidi, payload, w);
    Then(c, h, Accept(h, at, stream, isBidi, payload), w);
  }

  lemma ApartEnd(c: Conn, at: nat, stream: nat, isBidi: bool, w: Who)
    requires stream != w.stream
    ensures var d := Emit(EndStream(c, at, stream, isBidi), [StreamEvent(at, S.End(isBidi, stream))]);
      Apart(c, d, w)
  {
    hide Apart, S.OnRemoteStreamClosed;
    var e := StreamEvent(at, S.End(isBidi, stream));
    var d, f := Unregister(c, {stream}), EndStream(c, at, stream, isBidi);
    ApartSame(c, w);
    ApartUnregister(c, {stream}, w);
    if at in d.sessions {
      var r := S.Untrack(S.OnRemoteStreamClosed(d.sessions[at], isBidi), stream);
      ClosedKeeps(d.sessions[at], isBidi);
      ApartPut(d, at, r, w);
      Then(c, d, Put(d, at, r), w);
    }
    ApartEmit(f, [e], w);
    Then(c, f, Emit(f, [e]), w);
  }

  lemma ClosedKeeps(s: S.Session, isBidi: bool)
    ensures var r := S.OnRemoteStreamClosed(s, isBidi); r.entries == s.entries && r.associated == s.associated
  {
  }

  lemma ApartStreamData(c: Conn, stream: nat, data: bytes, fin: bool, w: Who)
    requires Unclaimed(c, w) && stream != w.stream
    ensures Apart(c, StreamData(c, stream, data, fin), w)
  {
    hide Apart, Hold, Accept, EndStream, S.CheckReceivedData, Unclaimed;
    ApartSame(c, w);
    if stream in c.streams {
      var r := c.streams[stream];
      if r.session in c.sessions && c.sessions[r.session].phase.Pending? {
        ApartHold(c, r.session, stream, data, w);
        var d := Hold(c, r.session, stream, data);
        if r.session in d.sessions {
          ApartPut(d, r.session, S.MarkFin(d.sessions[r.session], stream), w);
          Then(c, d, Put(d, r.session, S.MarkFin(d.sessions[r.session], stream)), w);
        }
      } else {
        ApartAccept(c, r.session, stream, r.isBidi, data, w);
        ApartEnded(c, r, stream, data, w);
      }
    }
  }

  /** The end after the octets; after a violation the session is gone, whichever it is. */
  lemma ApartEnded(c: Conn, r: Registration, stream: nat, data: bytes, w: Who)
    requires Unclaimed(c, w) && stream != w.stream
    ensures var d := Accept(c, r.session, stream, r.isBidi, data);
      Apart(c, Emit(EndStream(d, r.session, stream, r.isBidi), [StreamEvent(r.session, S.End(r.isBidi, stream))]), w)
  {
    hide Apart, Accept, EndStream, S.CheckReceivedData;
    var d := Accept(c, r.session, stream, r.isBidi, data);
    ApartAccept(c, r.session, stream, r.isBidi, data, w);
    ApartEnd(d, r.session, stream, r.isBidi, w);
    ThenEnd(c, d, r, stream, w);
  }

  /** The end of a stream brings no session back. */
  lemma ThenEnd(c: Conn, d: Conn, r: Registration, stream: nat, w: Who)
    requires Apart(c, d, w) && stream != w.stream
    ensures var e := Emit(EndStream(d, r.session, stream, r.isBidi), [StreamEvent(r.session, S.End(r.isBidi, stream))]);
      Apart(d, e, w) ==> Apart(c, e, w)
  {
    hide Mine, A.Charge, S.OnRemoteStreamClosed, S.Untrack;
  }

  lemma ResetKeepsOthers(s: S.Session, role: Role, stream: nat, isBidi: bool, n: nat)
    ensures var r := ResetSession(s, role, stream, isBidi, n);
      r.entries == s.entries && r.associated == s.associated - {stream}
  {
  }

  lemma ApartForget(c: Conn, stream: nat, w: Who)
    requires stream != w.stream
    ensures Apart(c, Forget(c, stream), w)
  {
    hide Mine, A.Charge, Filter;
  }

  lemma ApartReset(c: Conn, stream: nat, finalSize: nat, w: Who)
    requires Unclaimed(c, w) && stream != w.stream
    ensures Apart(c, Reset(c, stream, finalSize), w)
  {
    hide Apart, Terminate, S.CheckReceivedData, ResetSession, Residual, Unclaimed, Forget;
    ApartSame(c, w);
    ApartTerminate(c, stream, w);
    ApartForget(c, stream, w);
    if stream in c.streams {
      var r, n := c.streams[stream], Residual(c, stream, finalSize);
      ApartTerminate(c, r.session, w);
      var d := c;
      if r.session in c.sessions {
        ResetKeepsOthers(c.sessions[r.session], c.role, stream, r.isBidi, n);
        d := Put(c, r.session, ResetSession(c.sessions[r.session], c.role, stream, r.isBidi, n));
        ApartPut(c, r.session, ResetSession(c.sessions[r.session], c.role, stream, r.isBidi, n), w);
      }
      ApartUnregister(d, {stream}, w);
      var e := Unregister(d, {stream});
      Then(c, d, e, w);
      ApartEmit(e, [StreamReset(r.session, stream, finalSize)], w);
      Then(c, e, Emit(e, [StreamReset(r.session, stream, finalSize)]), w);
    }
  }

  lemma ApartOneChunk(c: Conn, stream: nat, at: nat, payload: bytes, w: Who)
    requires Unclaimed(c, w) && stream != w.stream
    ensures Apart(c, OneChunk(c, stream, at, payload), w)
  {
    hide Apart, Unclaimed, NewStream;
    ApartNewStream(c, stream, at, false, payload, w);
    var d, e := NewStream(c, stream, at, false, payload), StreamEvent(at, S.End(false, stream));
    ApartUnregister(d, {stream}, w);
    Then(c, d, Unregister(d, {stream}), w);
    ApartEmit(Unregister(d, {stream}), [e], w);
    Then(c, Unregister(d, {stream}), Emit(Unregister(d, {stream}), [e]), w);
  }

  /** Another session is established. */
  lemma ApartEstablish(c: Conn, at: nat, setup: Setup, w: Who)
    requires A.SessionInv(c, at) && at != w.session && Unclaimed(c, w)
    requires w.stream in c.streams ==> Holds(c, w)
    ensures Apart(c, K.Establish(c, at, setup), w)
  {
    hide Apart, Terminate, S.DeliverFrom, ClosedIds, Start, A.Charge, A.Total, Wrap, Unclaimed;
    ApartSame(c, w);
    if at in c.sessions && c.sessions[at].phase.Pending? {
      var s := Start(c.sessions[at], setup);
      C.StartEffect(c.sessions[at], setup);
      var d, more := S.Deliver(s), [Event.SessionEstablished(at)];
      D.DeliverScope(s.(order := []), s.order);
      var put := Put(c, at, d.session);
      ApartPut(c, at, d.session, w);
      ApartEmit(put, more + Wrap(at, d.events), w);
      var told := Emit(put, more + Wrap(at, d.events));
      Then(c, put, told, w);
      ApartUnregister(told, ClosedIds(d.closed), w);
      var e := Unregister(told, ClosedIds(d.closed));
      Then(c, told, e, w);
      StillUnclaimed(c, e, w);
      ApartTerminate(e, at, w);
      Then(c, e, Terminate(e, at), w);
      ApartPut(e, at, d.session.(datagrams := []), w);
      var f := Put(e, at, d.session.(datagrams := []));
      Then(c, e, f, w);
      ApartEmit(f, Datagrams(at, d.session.datagrams), w);
      Then(c, f, Emit(f, Datagrams(at, d.session.datagrams)), w);
    }
  }

  lemma ConsumedKeeps(s: S.Session, n: nat)
    ensures var r := S.OnDataConsumed(s, n); r.entries == s.entries && r.associated == s.associated
  {
  }

  /** Session inputs other than establishment. */
  lemma ApartSession(c: Conn, setup: Setup, input: Input, w: Who)
    requires Unclaimed(c, w)
    requires input.InConnect? || input.InRefuse? || input.InConnectEnded? || input.InDrain? || input.InClose?
        || input.InDatagram? || input.InConsumed?
    ensures Apart(c, Handle(c, setup, input), w)
  {
    hide Apart, Terminate, Bury, S.OnDataConsumed, PendingCount, Unclaimed;
    var at := input.session;
    ApartSame(c, w);
    ApartTerminate(c, at, w);
    ApartBury(c, at, w);
    if at !in c.sessions {
      ApartPut(c, at, S.NEW, w);
    }
    if input.InDatagram? {
      ApartEmit(c, [Datagram(at, input.payload)], w);
      ApartPut(c, at, S.BufferDatagram(if at in c.sessions then c.sessions[at] else S.NEW, input.payload), w);
    } else if at in c.sessions {
      var s := c.sessions[at].(phase := S.Draining);
      ApartPut(c, at, s, w);
      ApartEmit(Put(c, at, s), [SessionDraining(at)], w);
      Then(c, Put(c, at, s), Emit(Put(c, at, s), [SessionDraining(at)]), w);
      if input.InConsumed? {
        ConsumedKeeps(c.sessions[at], input.n);
        ApartPut(c, at, S.OnDataConsumed(c.sessions[at], input.n), w);
      }
    }
  }

  lemma ApartLocal(c: Conn, stream: nat, at: nat, w: Who)
    requires stream != w.stream
    ensures Apart(c, RegisterLocal(c, stream, at), w)
  {
    hide Apart;
    ApartSame(c, w);
    if at in c.sessions {
      var s := c.sessions[at].(associated := c.sessions[at].associated + {stream});
      ApartPut(c, at, s, w);
      var r := Registration(at, IsLocalBidi(c.role, stream));
      ApartRegister(Put(c, at, s), stream, r, w);
      Then(c, Put(c, at, s), Put(c, at, s).(streams := c.streams[stream := r]), w);
    }
  }

  lemma ApartHandle(c: Conn, setup: Setup, input: Input, w: Who)
    requires Foreign(input, w) && Unclaimed(c, w) && (w.stream in c.streams ==> Holds(c, w))
    requires input.InEstablish? ==> A.SessionInv(c, input.session)
    ensures Apart(c, Handle(c, setup, input), w)
  {
    hide Apart, Unclaimed, A.SessionInv, NewStream, OneChunk, StreamData, Reset, K.Establish, RegisterLocal;
    match input {
      case InNewStream(stream, session, isBidi, payload) => ApartNewStream(c, stream, session, isBidi, payload, w);
      case InOneChunk(stream, session, payload) => ApartOneChunk(c, stream, session, payload, w);
      case InStreamData(stream, data, fin) => ApartStreamData(c, stream, data, fin, w);
      case InReset(stream, finalSize) => ApartReset(c, stream, finalSize, w);
      case InRegisterLocal(stream, session) => ApartLocal(c, stream, session, w);
      case InEstablish(session) => ApartEstablish(c, session, setup, w);
      case _ => ApartSession(c, setup, input, w);
    }
  }

  lemma NobodyClaims(c: Conn, w: Who)
    requires forall x: nat :: A.SessionInv(c, x)
    ensures Unclaimed(c, w)
  {
    hide A.Charge, A.Total, A.Balanced, A.Waiting, A.Concluded;
    forall x | x in c.sessions && x != w.session && Holds(c, w)
      ensures w.stream !in c.sessions[x].associated
    {
      assert A.SessionInv(c, x);
    }
  }

  /** Whatever else happens, the connection holds of the stream what it held. */
  lemma ForeignStep(c: Conn, setup: Setup, input: Input, w: Who, part: bytes, fin: bool, joined: bool,
                    established: bool, head: nat)
    requires ConnShape(c, w, part, fin, joined, established, head) && (forall x: nat :: A.SessionInv(c, x))
        && Foreign(input, w)
    requires var d := Handle(c, setup, input);
      joined && (established ==> !fin) ==> w.session in c.sessions && w.session in d.sessions
    ensures ConnShape(Handle(c, setup, input), w, part, fin, joined, established, head)
  {
    hide A.SessionInv, Handle, A.Charge, Mine, SeenOf, Claims;
    NobodyClaims(c, w);
    ApartHandle(c, setup, input, w);
  }
}
