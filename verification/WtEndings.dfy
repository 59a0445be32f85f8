/** How the end of a WebTransport session is told: exactly when it comes, once, and with every
    stream that has to be reset. */
module WtEndings {
  import opened Bytes
  import opened WtWindows
  import S = WtSession
  import opened WtConnection
  import L = WtLifecycle
  import A = WtAccounting
  import WC = WtConservation

  // ---- Once -----------------------------------------------------------------------------

  /** How often a session was reported as established. */
  function Openings(events: seq<Event>, id: nat): nat {
    if events == [] then 0
    else Openings(events[..|events| - 1], id) + if events[|events| - 1] == SessionEstablished(id) then 1 else 0
  }

  predicate IsClosing(e: Event, id: nat) {
    e.SessionClosed? && e.session == id
  }

  /** How often it was reported as closed. */
  function Closings(events: seq<Event>, id: nat): nat {
    if events == [] then 0
    else Closings(events[..|events| - 1], id) + if IsClosing(events[|events| - 1], id) then 1 else 0
  }

  lemma {:induction false} LifeCounts(events: seq<Event>, id: nat)
    ensures match L.LifeOf(events, id)
      case Silent => Openings(events, id) == 0 && Closings(events, id) == 0
      case Running => Openings(events, id) == 1 && Closings(events, id) == 0
      case Over => Openings(events, id) <= 1 && Closings(events, id) == 1
      case Broken => true
  {
    if events != [] {
      LifeCounts(events[..|events| - 1], id);
    }
  }

  /** In every run, a session is reported as established at most once and as closed at most once;
      an established one was reported, and has not been closed; and one that was reported and is
      no longer there has been reported as closed, exactly once, and never comes back. */
  lemma EstablishedEndsOnce(role: Role, goaway: Option<nat>, setup: Setup, inputs: seq<Input>, id: nat)
    ensures var c := HandleAll(Fresh(role, goaway), setup, inputs);
      var begun, ended := Openings(c.events, id), Closings(c.events, id);
      && begun <= 1 && ended <= 1
      && (id in c.sessions ==> ended == 0 && (c.sessions[id].phase.Pending? ==> begun == 0))
      && (id in c.sessions && c.sessions[id].phase.Established? ==> begun == 1)
      && (begun == 1 && id !in c.sessions ==> ended == 1)
      && (ended == 1 ==> id in c.closed && id !in c.sessions)
  {
    hide HandleAll;
    L.LifeInOrder(role, goaway, setup, inputs, id);
    LifeCounts(HandleAll(Fresh(role, goaway), setup, inputs).events, id);
  }

  // ---- With every stream ------------------------------------------------------------------

  /** The `k`-th report is the only new one about the life of a session, and it closes this one
      with these streams. */
  ghost predicate ClosedAt(c: Conn, d: Conn, id: nat, associated: set<nat>, waiting: seq<nat>, k: nat) {
    && |c.events| <= k < |d.events| && d.events[k] == SessionClosed(id, associated, waiting)
    && (forall i :: |c.events| <= i < |d.events| && i != k ==> L.Plain(d.events[i]))
  }

  /** `d` is `c` after the end of a session: one of the new reports closes it and lists these
      streams, the others say nothing of the kind; none of the associated ones is registered any
      more, and the session is gone for good. */
  ghost predicate ClosedWith(c: Conn, d: Conn, id: nat, associated: set<nat>, waiting: seq<nat>) {
    && c.events <= d.events && (exists k: nat :: ClosedAt(c, d, id, associated, waiting, k))
    && id in d.closed && id !in d.sessions
    && (forall x :: x in associated ==> x !in d.streams)
  }

  lemma TerminateReports(c: Conn, id: nat)
    requires id in c.sessions
    ensures ClosedWith(c, Terminate(c, id), id, c.sessions[id].associated, c.sessions[id].order)
  {
    assert ClosedAt(c, Terminate(c, id), id, c.sessions[id].associated, c.sessions[id].order, |c.events|);
  }

  /** Plain reports before or after the closing change nothing. */
  lemma ReportedLater(c: Conn, b: Conn, d: Conn, e: Conn, id: nat, more: seq<Event>, last: seq<Event>,
                      associated: set<nat>, waiting: seq<nat>)
    requires b.events == c.events + more && e.events == d.events + last && ClosedWith(b, d, id, associated, waiting)
    requires forall i :: 0 <= i < |more| ==> L.Plain(more[i])
    requires forall i :: 0 <= i < |last| ==> L.Plain(last[i])
    requires e.sessions.Keys == d.sessions.Keys && e.closed == d.closed && e.streams.Keys <= d.streams.Keys
    ensures ClosedWith(c, e, id, associated, waiting)
  {
    var k: nat :| ClosedAt(b, d, id, associated, waiting, k);
    forall i | |c.events| <= i < |e.events| && i != k
      ensures L.Plain(e.events[i])
    {
      if i < |b.events| {
        assert e.events[i] == b.events[i] == more[i - |c.events|];
      } else if i >= |d.events| {
        assert e.events[i] == last[i - |d.events|];
      }
    }
    assert ClosedAt(c, e, id, associated, waiting, k);
    assert c.events <= b.events <= d.events <= e.events;
  }

  // ---- Exactly when -------------------------------------------------------------------------

  /** `n` more octets would be more than was announced. */
  predicate Overrun(s: S.Session, n: nat) {
    s.windows.Some? && n > 0 && s.windows.value.data.received + n > s.windows.value.data.max
  }

  /** As many streams were received as were announced. */
  predicate NoPlace(s: S.Session, isBidi: bool) {
    s.windows.Some?
    && if isBidi then s.windows.value.bidi.received >= s.windows.value.bidi.max
       else s.windows.value.uni.received >= s.windows.value.uni.max
  }

  /** The octets of a reset stream that are still to be accounted. */
  function StillDue(c: Conn, stream: nat, finalSize: nat): nat
    requires stream in c.streams && c.streams[stream].session in c.sessions
  {
    var header := if IsLocalBidi(c.role, stream) then 0 else HeaderLength(c.streams[stream]);
    var accounted := S.Accounted(c.sessions[c.streams[stream].session], stream);
    if finalSize > header + accounted then finalSize - header - accounted else 0
  }

  /** The inputs that end session `id`, told from the state before them. */
  predicate Ends(c: Conn, setup: Setup, input: Input, id: nat)
    requires id in c.sessions
  {
    var s := c.sessions[id];
    match input
    case InNewStream(_, at, isBidi, payload) =>
      at == id && s.phase.Established? && (NoPlace(s, isBidi) || Overrun(s, |payload|))
    case InOneChunk(_, at, payload) => at == id && s.phase.Established? && (NoPlace(s, false) || Overrun(s, |payload|))
    case InStreamData(stream, data, _) =>
      && stream in c.streams && c.streams[stream].session == id && !IsLocalUni(c.role, stream)
      && !s.phase.Pending? && Overrun(s, |data|)
    case InReset(stream, finalSize) =>
      || stream == id
      || (&& stream !in c.sessions && stream !in c.closed && !Waits(c, stream) && !IsLocalUni(c.role, stream)
          && stream in c.streams && c.streams[stream].session == id && Overrun(s, StillDue(c, stream, finalSize)))
    case InEstablish(at) => at == id && s.phase.Pending? && S.Deliver(Start(s, setup)).violation
    case InRefuse(at) => at == id && s.phase.Pending?
    case InConnectEnded(at) => at == id
    case InClose(at) => at == id
    case _ => false
  }

  /** The stream that an input adds to session `id` before it can end it. */
  function Joining(input: Input, id: nat): set<nat> {
    match input
    case InNewStream(stream, at, _, _) => if at == id then {stream} else {}
    case InOneChunk(stream, at, _) => if at == id then {stream} else {}
    case _ => {}
  }

  lemma OverrunIs(s: S.Session, n: nat)
    ensures Overrun(s, n) <==> !S.CheckReceivedData(s, n)
    ensures forall isBidi :: NoPlace(s, isBidi) <==> !S.CheckReceivedStream(s, isBidi)
  {
  }

  /** What a step of a session amounts to: it goes on, or it ends as said. */
  ghost predicate Outcome(c: Conn, d: Conn, id: nat, ends: bool, joining: set<nat>)
    requires id in c.sessions
  {
    if ends then ClosedWith(c, d, id, c.sessions[id].associated + joining, c.sessions[id].order)
    else id in d.sessions
  }

  lemma AcceptEnds(c: Conn, at: nat, stream: nat, isBidi: bool, data: bytes, id: nat)
    requires id in c.sessions
    ensures Outcome(c, Accept(c, at, stream, isBidi, data), id, at == id && Overrun(c.sessions[id], |data|), {})
  {
    hide Terminate, ClosedWith;
    OverrunIs(c.sessions[id], |data|);
    TerminateReports(c, id);
    assert c.sessions[id].associated + {} == c.sessions[id].associated;
    if at in c.sessions && at != id {
      OthersStay(c, at, id);
    }
  }

  lemma OthersStay(c: Conn, at: nat, id: nat)
    requires at in c.sessions && id in c.sessions && at != id
    ensures id in Terminate(c, at).sessions
  {
  }

  lemma HoldStays(c: Conn, at: nat, stream: nat, data: bytes, id: nat)
    requires at in c.sessions && id in c.sessions
    ensures id in Hold(c, at, stream, data).sessions
  {
    hide S.AppendData;
  }

  /** A stream joins an established session: it has a place, and its octets too. */
  lemma JoinEnds(c: Conn, stream: nat, id: nat, isBidi: bool, payload: bytes)
    requires id in c.sessions && c.sessions[id].phase.Established?
    ensures Outcome(c, NewStream(c, stream, id, isBidi, payload), id,
                    NoPlace(c.sessions[id], isBidi) || Overrun(c.sessions[id], |payload|), {stream})
  {
    hide Terminate, ClosedWith, Accept, S.CheckReceivedStream, S.AddReceivedStream, S.CheckReceivedData;
    var s := c.sessions[id].(associated := c.sessions[id].associated + {stream});
    var d := Put(c.(streams := c.streams[stream := Registration(id, isBidi)]), id, s);
    JoinedWindows(c.sessions[id], s, isBidi, |payload|);
    OverrunIs(s, 0);
    var u := Unregister(d, {stream});
    if NoPlace(s, isBidi) {
      TerminateReports(u, id);
      ReportedLater(c, u, Terminate(u, id), Terminate(u, id), id, [], [], s.associated, s.order);
    } else {
      var e := Emit(Put(d, id, S.AddReceivedStream(s, isBidi)), [StreamEvent(id, S.Open(isBidi, stream))]);
      AcceptEnds(e, id, stream, isBidi, payload, id);
      if Overrun(c.sessions[id], |payload|) {
        assert s.associated + {} == s.associated;
        var f := Accept(e, id, stream, isBidi, payload);
        ReportedLater(c, e, f, f, id, [StreamEvent(id, S.Open(isBidi, stream))], [], s.associated, s.order);
      }
    }
  }

  lemma JoinedWindows(s: S.Session, t: S.Session, isBidi: bool, n: nat)
    requires t.windows == s.windows
    ensures NoPlace(t, isBidi) <==> NoPlace(s, isBidi)
    ensures Overrun(S.AddReceivedStream(t, isBidi), n) <==> Overrun(s, n)
    ensures S.AddReceivedStream(t, isBidi).associated == t.associated && S.AddReceivedStream(t, isBidi).order == t.order
  {
  }

  lemma NewStreamEnds(c: Conn, stream: nat, at: nat, isBidi: bool, payload: bytes, id: nat)
    requires id in c.sessions
    ensures Outcome(c, NewStream(c, stream, at, isBidi, payload), id,
                    at == id && c.sessions[id].phase.Established?
                    && (NoPlace(c.sessions[id], isBidi) || Overrun(c.sessions[id], |payload|)),
                    {stream})
  {
    hide Terminate, ClosedWith, Accept, Hold, Associate, S.CheckReceivedStream, S.AddReceivedStream;
    if at in c.sessions && c.sessions[at].phase.Established? {
      if at == id {
        JoinEnds(c, stream, id, isBidi, payload);
      } else {
        JoinElsewhere(c, stream, at, isBidi, payload, id);
      }
    } else {
      WaitStays(c, stream, at, isBidi, payload, id);
    }
  }

  lemma JoinElsewhere(c: Conn, stream: nat, at: nat, isBidi: bool, payload: bytes, id: nat)
    requires id in c.sessions && at in c.sessions && c.sessions[at].phase.Established? && at != id
    ensures id in NewStream(c, stream, at, isBidi, payload).sessions
  {
    hide Terminate, Accept, S.CheckReceivedStream, S.AddReceivedStream;
    var s := c.sessions[at].(associated := c.sessions[at].associated + {stream});
    var d := Put(c.(streams := c.streams[stream := Registration(at, isBidi)]), at, s);
    OthersStay(Unregister(d, {stream}), at, id);
    AcceptEnds(Emit(Put(d, at, S.AddReceivedStream(s, isBidi)), [StreamEvent(at, S.Open(isBidi, stream))]), at, stream,
               isBidi, payload, id);
  }

  lemma WaitStays(c: Conn, stream: nat, at: nat, isBidi: bool, payload: bytes, id: nat)
    requires id in c.sessions && !(at in c.sessions && c.sessions[at].phase.Established?)
    ensures id in NewStream(c, stream, at, isBidi, payload).sessions
  {
    hide Terminate, Accept, Hold, PendingCount, S.BufferStream, S.CheckReceivedStream;
    var d := Associate(c.(streams := c.streams[stream := Registration(at, isBidi)]), stream, at, isBidi).0;
    assert id in d.sessions;
    if at in d.sessions {
      HoldStays(d, at, stream, payload, id);
    }
  }

  lemma OneChunkEnds(c: Conn, stream: nat, at: nat, payload: bytes, id: nat)
    requires id in c.sessions
    ensures Outcome(c, OneChunk(c, stream, at, payload), id,
                    at == id && c.sessions[id].phase.Established?
                    && (NoPlace(c.sessions[id], false) || Overrun(c.sessions[id], |payload|)),
                    {stream})
  {
    hide NewStream, NoPlace, Overrun, ClosedWith;
    NewStreamEnds(c, stream, at, false, payload, id);
    var d := NewStream(c, stream, at, false, payload);
    var s, e := c.sessions[id], [StreamEvent(at, S.End(false, stream))];
    if at == id && s.phase.Established? && (NoPlace(s, false) || Overrun(s, |payload|)) {
      ReportedLater(c, c, d, Emit(Unregister(d, {stream}), e), id, [], e, s.associated + {stream}, s.order);
    }
  }

  lemma StreamDataEnds(c: Conn, stream: nat, data: bytes, fin: bool, id: nat)
    requires id in c.sessions
    ensures Outcome(c, StreamData(c, stream, data, fin), id,
                    stream in c.streams && c.streams[stream].session == id && !IsLocalUni(c.role, stream)
                    && !c.sessions[id].phase.Pending? && Overrun(c.sessions[id], |data|),
                    {})
  {
    hide Terminate, Accept, Hold, EndStream, S.MarkFin, S.CheckReceivedData, ClosedWith, Overrun;
    if stream in c.streams && !IsLocalUni(c.role, stream) {
      var r := c.streams[stream];
      if r.session in c.sessions {
        HoldStays(c, r.session, stream, data, id);
      }
      AcceptEnds(c, r.session, stream, r.isBidi, data, id);
      var d := Accept(c, r.session, stream, r.isBidi, data);
      EndStays(d, r.session, stream, r.isBidi);
      if r.session == id && Overrun(c.sessions[id], |data|) {
        var s := c.sessions[id];
        assert s.associated + {} == s.associated;
        var e := Emit(EndStream(d, id, stream, r.isBidi), [StreamEvent(id, S.End(r.isBidi, stream))]);
        ReportedLater(c, c, d, e, id, [], [StreamEvent(id, S.End(r.isBidi, stream))], s.associated, s.order);
      }
    }
  }

  lemma EndStays(c: Conn, at: nat, stream: nat, isBidi: bool)
    ensures var d := EndStream(c, at, stream, isBidi);
      && d.sessions.Keys == c.sessions.Keys && d.closed == c.closed && d.streams.Keys <= c.streams.Keys
      && d.events == c.events
  {
  }

  lemma DueIs(c: Conn, stream: nat, finalSize: nat)
    requires stream in c.streams && c.streams[stream].session in c.sessions
    ensures Residual(c, stream, finalSize) == StillDue(c, stream, finalSize)
  {
  }

  lemma ResetEnds(c: Conn, stream: nat, finalSize: nat, id: nat)
    requires id in c.sessions
    ensures Outcome(c, Reset(c, stream, finalSize), id,
                    stream == id
                    || (stream !in c.sessions && stream !in c.closed && !Waits(c, stream) && !IsLocalUni(c.role, stream)
                        && stream in c.streams && c.streams[stream].session == id
                        && Overrun(c.sessions[id], StillDue(c, stream, finalSize))),
                    {})
  {
    hide Terminate, Residual, StillDue, ClosedWith, ResetSession, S.CheckReceivedData, Overrun, ForgetIn;
    assert c.sessions[id].associated + {} == c.sessions[id].associated;
    TerminateReports(c, id);
    if stream in c.sessions && stream != id {
      OthersStay(c, stream, id);
    }
    if stream !in c.sessions && stream in c.streams && c.streams[stream].session in c.sessions {
      var at := c.streams[stream].session;
      DueIs(c, stream, finalSize);
      OverrunIs(c.sessions[at], Residual(c, stream, finalSize));
      if at != id {
        OthersStay(c, at, id);
      }
    }
  }

  lemma EstablishEnds(c: Conn, at: nat, setup: Setup, id: nat)
    requires id in c.sessions
    ensures id in Establish(c, at, setup).sessions
        <==> !(at == id && c.sessions[id].phase.Pending? && S.Deliver(Start(c.sessions[id], setup)).violation)
  {
    hide S.Deliver, Start, ClosedIds, Wrap, Datagrams;
  }

  // ---- Every input ---------------------------------------------------------------------------

  /** A session ends with an input if and only if the state before says so: one of the windows is
      overrun, its CONNECT stream ends or is reset, or either side closes or refuses it. */
  lemma EndsExactly(c: Conn, setup: Setup, input: Input, id: nat)
    requires id in c.sessions
    ensures id in Handle(c, setup, input).sessions <==> !Ends(c, setup, input, id)
  {
    hide NewStream, OneChunk, StreamData, Reset, Establish, Terminate, StillDue, Overrun, NoPlace, Waits, ClosedWith,
        PendingCount, S.BufferDatagram, S.OnDataConsumed, S.Deliver, Start;
    match input {
      case InNewStream(stream, at, isBidi, payload) =>
        NewStreamEnds(c, stream, at, isBidi, payload, id);
        EndedIsGone(c, Handle(c, setup, input), id, {stream});
      case InOneChunk(stream, at, payload) =>
        OneChunkEnds(c, stream, at, payload, id);
        EndedIsGone(c, Handle(c, setup, input), id, {stream});
      case InStreamData(stream, data, fin) =>
        StreamDataEnds(c, stream, data, fin, id);
        EndedIsGone(c, Handle(c, setup, input), id, {});
      case InReset(stream, finalSize) =>
        ResetEnds(c, stream, finalSize, id);
        EndedIsGone(c, Handle(c, setup, input), id, {});
      case InEstablish(at) => EstablishEnds(c, at, setup, id);
      case InConnectEnded(at) => TerminateEnds(c, at, id);
      case InClose(at) => TerminateEnds(c, at, id);
      case _ =>
    }
  }

  lemma EndedIsGone(c: Conn, d: Conn, id: nat, joining: set<nat>)
    requires id in c.sessions
    ensures Outcome(c, d, id, true, joining) ==> id !in d.sessions
    ensures Outcome(c, d, id, false, joining) ==> id in d.sessions
  {
  }

  lemma TerminateEnds(c: Conn, at: nat, id: nat)
    requires id in c.sessions
    ensures id in Terminate(c, at).sessions <==> at != id
  {
  }

  /** And it is told as it should: a refused request, or one whose stream ends unanswered, without
      a report; anything else with exactly one, which lists the streams that were associated
      before the input, the one that came with it, and those that were waiting. */
  lemma EndingIsReported(c: Conn, setup: Setup, input: Input, id: nat)
    requires id in c.sessions && Ends(c, setup, input, id) && !input.InEstablish?
    ensures var s, d := c.sessions[id], Handle(c, setup, input);
      if input.InRefuse? || (input.InConnectEnded? && s.phase.Pending?) then d.events == c.events && id in d.closed
      else ClosedWith(c, d, id, s.associated + Joining(input, id), s.order)
  {
    hide NewStream, OneChunk, StreamData, Reset, Terminate, StillDue, Overrun, NoPlace, Waits, ClosedWith;
    var s := c.sessions[id];
    assert s.associated + {} == s.associated;
    match input {
      case InNewStream(stream, at, isBidi, payload) => NewStreamEnds(c, stream, at, isBidi, payload, id);
      case InOneChunk(stream, at, payload) => OneChunkEnds(c, stream, at, payload, id);
      case InStreamData(stream, data, fin) => StreamDataEnds(c, stream, data, fin, id);
      case InReset(stream, finalSize) => ResetEnds(c, stream, finalSize, id);
      case InRefuse(_) =>
      case InConnectEnded(_) => TerminateReports(c, id);
      case InClose(_) => TerminateReports(c, id);
    }
  }

  // ---- Ended while it is being established ------------------------------------------------------

  /** Delivery puts back nothing that was not waiting. */
  lemma {:induction false} PutBackScope(s: S.Session, ids: seq<nat>)
    ensures forall x :: x in S.RestoreAll(s, ids).order ==> x in s.order || x in s.entries
    decreases |ids|
  {
    if ids != [] {
      if ids[0] in s.entries {
        PutBackScope(S.RestoreEntry(S.DropEntry(s, ids[0]), ids[0], s.entries[ids[0]]), ids[1..]);
      } else {
        PutBackScope(s, ids[1..]);
      }
    }
  }

  lemma {:induction false} OrderScope(s: S.Session, ids: seq<nat>)
    ensures forall x :: x in S.DeliverFrom(s, ids).session.order ==> x in s.order || x in s.entries
    decreases |ids|
  {
    hide S.DeliveredSession, S.OpenedSession, S.CheckReceivedStream, S.CheckReceivedData;
    if ids != [] {
      if ids[0] !in s.entries {
        OrderScope(s, ids[1..]);
      } else {
        var stream, entry, t := ids[0], s.entries[ids[0]], S.DropEntry(s, ids[0]);
        DeliveredScope(t, stream, entry);
        PutBackScope(S.RestoreEntry(t, stream, entry), ids[1..]);
        PutBackScope(S.OpenedSession(t, stream, entry), ids[1..]);
        OrderScope(S.DeliveredSession(t, stream, entry), ids[1..]);
      }
    }
  }

  lemma DeliveredScope(s: S.Session, stream: nat, entry: S.Entry)
    ensures S.OpenedSession(s, stream, entry).order == s.order
    ensures S.OpenedSession(s, stream, entry).entries == s.entries
    ensures S.DeliveredSession(s, stream, entry).order == s.order
    ensures S.DeliveredSession(s, stream, entry).entries == s.entries
  {
  }

  /** When a limit is broken while a session is being established, the report that closes it lists
      the streams that were associated or waiting before, all of them and no others. */
  lemma EstablishReportsAll(c: Conn, id: nat, setup: Setup)
    requires A.SessionInv(c, id) && id in c.sessions && Ends(c, setup, InEstablish(id), id)
    ensures var s, d := c.sessions[id], S.Deliver(Start(c.sessions[id], setup));
      && Establish(c, id, setup).events
         == c.events + ([SessionEstablished(id)] + Wrap(id, d.events))
            + [SessionClosed(id, d.session.associated, d.session.order)]
      && id in Establish(c, id, setup).closed
      && (forall x :: x in d.session.associated || x in d.session.order <==> x in s.associated || x in s.entries)
  {
    hide S.DeliverFrom, Wrap, Datagrams, ClosedIds;
    var s := c.sessions[id];
    var t := Start(s, setup);
    OrderScope(t.(order := []), t.order);
    WC.StartScope(s, setup);
    S.DeliverFromFrame(t.(order := []), t.order);
    WaitingOrder(c, id);
    forall x | x in s.entries
      ensures x in S.Deliver(t).session.associated || x in S.Deliver(t).session.order
    {
      S.NoStreamLost(t.(order := []), t.order, x);
    }
  }

  lemma WaitingOrder(c: Conn, id: nat)
    requires A.SessionInv(c, id) && id in c.sessions && c.sessions[id].phase.Pending?
    ensures forall x :: x in c.sessions[id].entries ==> x in c.sessions[id].order
    ensures c.sessions[id].associated == {}
  {
  }
}
