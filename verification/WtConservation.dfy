/** Conservation of flow-control credit over all runs of a connection. */
module WtConservation {
  import opened Bytes
  import opened WtWindows
  import S = WtSession
  import opened WtConnection
  import opened WtAccounting
  import opened WtDelivery
  import L = WtLifecycle

  // ---- Session inputs ------------------------------------------------------------------------------

  lemma StartEffect(s: S.Session, setup: Setup)
    ensures var r := Start(s, setup);
      && r.phase == S.Established && r.associated == s.associated && r.tracked == s.tracked && r.entries == s.entries
      && (s.windows.None? && r.windows.Some? ==> WindowsKept(r.windows.value) && r.windows.value.data.received == 0)
  {
  }

  /** The session right after delivery without a violation. */
  lemma EstablishedHere(c: Conn, at: nat, setup: Setup, d: S.Delivery, e: Conn)
    requires SessionInv(c, at) && at in c.sessions && c.sessions[at].phase.Pending?
    requires d == S.Deliver(Start(c.sessions[at], setup)) && !d.violation
    requires e == Unregister(Emit(Put(c, at, d.session), [SessionEstablished(at)] + Wrap(at, d.events)),
                             ClosedIds(d.closed))
    ensures SessionInv(e, at)
  {
    hide Charge, Total, S.DeliverFrom, Start, ClosedIds, Wrap, S.Accounted, WindowsKept, Concluded, Ends;
    var s := Start(c.sessions[at], setup).(order := []);
    var evs := c.events + [SessionEstablished(at)];
    StartEffect(c.sessions[at], setup);
    StartBooks(c, at, s, evs);
    BooksAfter(c.role, at, s, evs, {}, Start(c.sessions[at], setup).order);
    DeliverScope(s, Start(c.sessions[at], setup).order);
    assert e.events == evs + Wrap(at, d.events);
    assert {} + ClosedIds(d.closed) == ClosedIds(d.closed);
    forall x | x in ClosedIds(d.closed)
      ensures Concluded(e.events, x)
    {
      EndsConclude(at, evs, d.events, x);
    }
    forall x: nat
      ensures Concluded(c.events, x) ==> Concluded(e.events, x)
    {
      ConcludedMore(c.events, [SessionEstablished(at)] + Wrap(at, d.events), x);
      assert e.events == c.events + ([SessionEstablished(at)] + Wrap(at, d.events));
    }
    forall x: nat | Charge(c.role, at, x, e.events) > 0
      ensures Had(e, at, x)
    {
      OnlyTracked(d.session, x);
    }
  }

  lemma OnlyTracked(s: S.Session, x: nat)
    ensures S.Accounted(s, x) > 0 ==> x in s.tracked
  {
  }

  lemma StartBooks(c: Conn, at: nat, s: S.Session, evs: seq<Event>)
    requires at in c.sessions && Waiting(c, at, c.sessions[at]) && evs == c.events + [SessionEstablished(at)]
    requires s.tracked == map[] && (s.windows.Some? ==>
        WindowsKept(s.windows.value) && s.windows.value.data.received == 0)
    ensures Books(c.role, at, s, evs, {})
  {
    hide Charge, Total;
    forall x: nat
      ensures Charge(c.role, at, x, evs) == 0
    {
      NeutralEvents(c.role, at, x, c.events, [SessionEstablished(at)]);
    }
    NeutralEvents(c.role, at, 0, c.events, [SessionEstablished(at)]);
  }

  lemma EndsConclude(at: nat, evs: seq<Event>, events: seq<S.Event>, x: nat)
    requires Ends(events, x)
    ensures Concluded(evs + Wrap(at, events), x)
  {
    var i :| 0 <= i < |events| && events[i].End? && events[i].stream == x;
    var all := evs + Wrap(at, events);
    assert all[|evs| + i] == StreamEvent(at, events[i]);
  }

  lemma EstablishBeside(c: Conn, at: nat, d: S.Delivery, e: Conn, id: nat)
    requires SessionInv(c, id) && SessionInv(c, at) && id != at && at in c.sessions && c.sessions[at].phase.Pending?
    requires forall x :: x in ClosedIds(d.closed) ==> x in c.sessions[at].entries
    requires e == Unregister(Emit(Put(c, at, d.session), [SessionEstablished(at)] + Wrap(at, d.events)),
                             ClosedIds(d.closed))
    ensures SessionInv(e, id)
  {
    hide Charge, Total, Balanced, AssociatedOk, Concluded, ClosedIds, Wrap, Untouched;
    BesideKeeps(c, e, id, [SessionEstablished(at)] + Wrap(at, d.events));
  }

  lemma DatagramsKeep(c: Conn, at: nat, payloads: seq<bytes>, id: nat)
    requires SessionInv(c, id) && SessionInv(c, at) && at in c.sessions && !c.sessions[at].phase.Pending?
    ensures SessionInv(Emit(Put(c, at, c.sessions[at].(datagrams := [])), Datagrams(at, payloads)), id)
  {
    hide Charge, Total, Concluded, WindowsKept, Datagrams;
    var p, d := Put(c, at, c.sessions[at].(datagrams := [])),
        Emit(Put(c, at, c.sessions[at].(datagrams := [])), Datagrams(at, payloads));
    SameTracked(c.sessions[at], c.sessions[at].(datagrams := []));
    if id != at {
      PutBeside(c, at, c.sessions[at].(datagrams := []), id);
    }
    BesideKeeps(p, d, id, Datagrams(at, payloads));
  }

  lemma EstablishKeeps(c: Conn, at: nat, setup: Setup, id: nat)
    requires SessionInv(c, id) && SessionInv(c, at)
    ensures SessionInv(Establish(c, at, setup), id)
  {
    hide LiveInv, Untouched, Charge, Total, S.Deliver, Start, ClosedIds, Wrap, Datagrams, Terminate;
    if at in c.sessions && c.sessions[at].phase.Pending? {
      var d := S.Deliver(Start(c.sessions[at], setup));
      var e := Unregister(Emit(Put(c, at, d.session), [SessionEstablished(at)] + Wrap(at, d.events)),
                          ClosedIds(d.closed));
      StartScope(c.sessions[at], setup);
      if id != at {
        EstablishBeside(c, at, d, e, id);
      }
      if d.violation {
        ViolationScope(c, at, d, e);
        TerminateKeeps(e, at, id);
      } else {
        EstablishedHere(c, at, setup, d, e);
        DatagramsKeep(e, at, d.session.datagrams, id);
      }
    }
  }

  lemma StartScope(s: S.Session, setup: Setup)
    ensures var d := S.Deliver(Start(s, setup));
      && d.session.phase == S.Established
      && (forall x :: x in ClosedIds(d.closed) ==> x in s.entries)
      && (forall x :: x in d.session.associated ==> x in s.associated || x in s.entries)
  {
    hide S.DeliverFrom, ClosedIds;
    StartEffect(s, setup);
    DeliverScope(Start(s, setup).(order := []), Start(s, setup).order);
  }

  lemma ViolationScope(c: Conn, at: nat, d: S.Delivery, e: Conn)
    requires SessionInv(c, at) && at in c.sessions && c.sessions[at].phase.Pending?
    requires forall x :: x in d.session.associated ==> x in c.sessions[at].associated || x in c.sessions[at].entries
    requires e == Unregister(Emit(Put(c, at, d.session), [SessionEstablished(at)] + Wrap(at, d.events)),
                             ClosedIds(d.closed))
    ensures forall x :: x in e.sessions[at].associated && x in e.streams ==> Owns(e, at, x)
  {
    hide Charge, Total, ClosedIds, Wrap;
  }

  lemma DrainKeeps(c: Conn, at: nat, id: nat)
    requires SessionInv(c, id) && SessionInv(c, at)
    ensures SessionInv(Drain(c, at), id)
  {
    hide Charge, Total, Concluded, WindowsKept;
    if at in c.sessions {
      var p := Put(c, at, c.sessions[at].(phase := S.Draining));
      SameTracked(c.sessions[at], c.sessions[at].(phase := S.Draining));
      if id != at {
        PutBeside(c, at, c.sessions[at].(phase := S.Draining), id);
        EmitNeutral(p, SessionDraining(at), id);
      } else if c.sessions[at].phase.Established? || c.sessions[at].phase.Pending? {
        NothingTracked(c.sessions[at]);
        EmitNeutral(p, SessionDraining(at), id);
      }
    }
  }

  lemma NothingTracked(s: S.Session)
    ensures s.tracked == map[] ==> forall x: nat :: S.Accounted(s, x) == 0
  {
  }

  lemma RegisterKeeps(c: Conn, stream: nat, at: nat, id: nat)
    requires SessionInv(c, id) && SessionInv(c, at) && MayBeNew(c, stream)
    ensures SessionInv(RegisterLocal(c, stream, at), id)
  {
    hide LiveInv, Untouched, Charge, Total;
    if at in c.sessions && c.sessions[at].phase.Established? {
      JoinKeeps(c, at, stream, IsLocalBidi(c.role, stream), id);
    }
  }

  lemma DatagramKeeps(c: Conn, at: nat, payload: bytes, id: nat)
    requires SessionInv(c, id) && SessionInv(c, at)
    ensures SessionInv(FeedDatagram(c, at, payload), id)
  {
    hide Charge, Total, PendingCount, Concluded;
    EmitNeutral(c, Datagram(at, payload), id);
    var s := if at in c.sessions then c.sessions[at] else S.NEW;
    assert forall x :: Owns(Put(c, at, S.BufferDatagram(s, payload)), at, x) <==> Owns(c, at, x);
    if id != at {
      PutBeside(c, at, S.BufferDatagram(s, payload), id);
    } else if at !in c.closed && s.phase.Pending? {
      assert c.events + [] == c.events;
      WaitingHere(c, at, Put(c, at, S.BufferDatagram(s, payload)), []);
    }
  }

  lemma ConsumeKeeps(c: Conn, at: nat, n: nat, id: nat)
    requires SessionInv(c, id) && SessionInv(c, at)
    ensures SessionInv(Consumed(c, at, n), id)
  {
    hide Charge, Total, Concluded;
    if at in c.sessions {
      var s := c.sessions[at];
      if id != at {
        PutBeside(c, at, S.OnDataConsumed(s, n), id);
      } else {
        SameTracked(s, S.OnDataConsumed(s, n));
        if s.windows.Some? && WindowsKept(s.windows.value) {
          DataWindowKept(s.windows.value.data, n);
        }
      }
    }
  }

  lemma ConnectKeeps(c: Conn, at: nat, id: nat)
    requires SessionInv(c, id) && SessionInv(c, at)
    ensures SessionInv(Connect(c, at), id)
  {
    hide Charge, Total, Concluded;
    if at !in c.sessions && at !in c.closed {
      if id != at {
        PutBeside(c, at, S.NEW, id);
      } else {
        assert c.events + [] == c.events;
        WaitingHere(c, at, Put(c, at, S.NEW), []);
      }
    }
  }

  // ---- All runs --------------------------------------------------------------------------------

  /** What QUIC guarantees: no octets of a stream come after its end or its reset, and a stream is
      reset at most once. A stream that was refused, or whose session has ended, may be read again
      as a new one. */
  ghost predicate Lawful(c: Conn, input: Input) {
    match input
    case InNewStream(stream, _, _, _) => MayBeNew(c, stream)
    case InOneChunk(stream, _, _) => MayBeNew(c, stream)
    case InRegisterLocal(stream, _) => MayBeNew(c, stream)
    case InReset(stream, _) => NotResetYet(c, stream)
    case _ => true
  }

  lemma HandleKeeps(c: Conn, setup: Setup, input: Input, id: nat)
    requires (forall x: nat :: SessionInv(c, x)) && (forall x :: x in c.sessions ==> !c.sessions[x].phase.Closed?)
    requires Lawful(c, input)
    ensures SessionInv(Handle(c, setup, input), id)
  {
    hide SessionInv, NewStream, OneChunk, StreamData, Reset, Establish, Terminate, Bury, Drain, FeedDatagram,
        RegisterLocal, Consumed, Connect;
    match input {
      case InNewStream(stream, session, isBidi, payload) => NewStreamKeeps(c, stream, session, isBidi, payload, id);
      case InOneChunk(stream, session, payload) => OneChunkKeeps(c, stream, session, payload, id);
      case InStreamData(stream, data, fin) => StreamDataKeeps(c, stream, data, fin, id);
      case InReset(stream, finalSize) => ResetKeeps(c, stream, finalSize, id);
      case InConnect(session) => ConnectKeeps(c, session, id);
      case InEstablish(session) => EstablishKeeps(c, session, setup, id);
      case InRefuse(session) => BuryKeeps(c, session, id);
      case InConnectEnded(session) =>
        BuryKeeps(c, session, id);
        OwnAssociated(c, session);
        TerminateKeeps(c, session, id);
      case InDrain(session) => DrainKeeps(c, session, id);
      case InClose(session) =>
        OwnAssociated(c, session);
        TerminateKeeps(c, session, id);
      case InRegisterLocal(stream, session) => RegisterKeeps(c, stream, session, id);
      case InDatagram(session, payload) => DatagramKeeps(c, session, payload, id);
      case InConsumed(session, n) => ConsumeKeeps(c, session, n, id);
    }
  }

  ghost predicate LawfulRun(c: Conn, setup: Setup, inputs: seq<Input>) {
    forall n {:trigger inputs[n]} :: 0 <= n < |inputs| ==> Lawful(HandleAll(c, setup, inputs[..n]), inputs[n])
  }

  lemma LawfulBefore(c: Conn, setup: Setup, inputs: seq<Input>)
    requires LawfulRun(c, setup, inputs) && inputs != []
    ensures var n := |inputs| - 1;
      LawfulRun(c, setup, inputs[..n]) && Lawful(HandleAll(c, setup, inputs[..n]), inputs[n])
  {
    hide Lawful, HandleAll;
    var n := |inputs| - 1;
    forall i | 0 <= i < n
      ensures Lawful(HandleAll(c, setup, inputs[..n][..i]), inputs[..n][i])
    {
      assert inputs[..n][..i] == inputs[..i] && inputs[..n][i] == inputs[i];
    }
    assert inputs[n] == inputs[|inputs| - 1];
  }

  lemma FreshKeeps(role: Role, goaway: Option<nat>, id: nat)
    ensures SessionInv(Fresh(role, goaway), id)
  {
  }

  lemma {:induction false} BooksOverRuns(role: Role, goaway: Option<nat>, setup: Setup, inputs: seq<Input>, id: nat)
    requires LawfulRun(Fresh(role, goaway), setup, inputs)
    ensures SessionInv(HandleAll(Fresh(role, goaway), setup, inputs), id)
    decreases |inputs|
  {
    hide Handle, SessionInv, Lawful, LawfulRun;
    if inputs == [] {
      FreshKeeps(role, goaway, id);
    } else {
      var n := |inputs| - 1;
      LawfulBefore(Fresh(role, goaway), setup, inputs);
      var c := HandleAll(Fresh(role, goaway), setup, inputs[..n]);
      forall x: nat
        ensures SessionInv(c, x) && (x in c.sessions ==> !c.sessions[x].phase.Closed?)
      {
        BooksOverRuns(role, goaway, setup, inputs[..n], x);
        L.LifeInOrder(role, goaway, setup, inputs[..n], x);
      }
      HandleKeeps(c, setup, inputs[n], id);
    }
  }

  /** Conservation and enforcement: at any moment of any run, a session under flow control has
      received exactly what the events of its streams add up to, a reset stream counting for
      its final size without the header, or for what arrived if that is more; that total never
      exceeds the announced maximum; and the account kept for each of its streams is that
      stream's share. */
  lemma Conservation(role: Role, goaway: Option<nat>, setup: Setup, inputs: seq<Input>, id: nat, stream: nat)
    requires LawfulRun(Fresh(role, goaway), setup, inputs)
    ensures var c := HandleAll(Fresh(role, goaway), setup, inputs);
      id in c.sessions && !c.sessions[id].phase.Pending? ==>
        && (c.sessions[id].windows.Some? ==>
              var w := c.sessions[id].windows.value.data;
              w.received == Total(role, id, c.events) <= w.max <= w.consumed + w.initial)
        && (stream in c.streams && c.streams[stream].session == id ==>
              S.Accounted(c.sessions[id], stream) == Charge(role, id, stream, c.events))
  {
    hide HandleAll, Charge, Total, LawfulRun;
    BooksOverRuns(role, goaway, setup, inputs, id);
    SameRole(role, goaway, setup, inputs);
  }

  // ---- One ledger ----------------------------------------------------------------------------------

  function SumOfCharges(role: Role, id: nat, streams: seq<nat>, events: seq<Event>): nat {
    if streams == [] then 0
    else SumOfCharges(role, id, streams[..|streams| - 1], events) + Charge(role, id, streams[|streams| - 1], events)
  }

  predicate Distinct(streams: seq<nat>) {
    forall i, j :: 0 <= i < j < |streams| ==> streams[i] != streams[j]
  }

  /** Every stream that an event is about is in the list. */
  predicate Covers(streams: seq<nat>, events: seq<Event>) {
    forall i :: 0 <= i < |events| && Subject(events[i]).Some? ==> Subject(events[i]).value in streams
  }

  /** One more event moves the sum by what it adds to its own stream. */
  lemma {:induction false} SumSnoc(role: Role, id: nat, streams: seq<nat>, events: seq<Event>, e: Event)
    requires Distinct(streams)
    ensures var stream := if Subject(e).Some? then Subject(e).value else 0;
      SumOfCharges(role, id, streams, events + [e])
          + (if stream in streams then Charge(role, id, stream, events) else 0)
      == SumOfCharges(role, id, streams, events)
          + (if stream in streams then Charge(role, id, stream, events + [e]) else 0)
    decreases |streams|
  {
    hide Charge;
    if streams != [] {
      var before, last := streams[..|streams| - 1], streams[|streams| - 1];
      assert streams == before + [last];
      SumSnoc(role, id, before, events, e);
      ChargeSnoc(role, id, last, events, e);
    }
  }

  /** The total is the sum of the shares, over any list of distinct streams that has all that
      occur. */
  lemma {:induction false} TotalIsSum(role: Role, id: nat, streams: seq<nat>, events: seq<Event>)
    requires Distinct(streams) && Covers(streams, events)
    ensures Total(role, id, events) == SumOfCharges(role, id, streams, events)
    decreases |events|
  {
    hide Charge, SumOfCharges;
    if events == [] {
      NothingCharged(role, id, streams);
    } else {
      var before, e := events[..|events| - 1], events[|events| - 1];
      assert events == before + [e];
      TotalIsSum(role, id, streams, before);
      SumSnoc(role, id, streams, before, e);
      ChargeSnoc(role, id, if Subject(e).Some? then Subject(e).value else 0, before, e);
      assert events[|before|] == e;
    }
  }

  lemma {:induction false} NothingCharged(role: Role, id: nat, streams: seq<nat>)
    ensures SumOfCharges(role, id, streams, []) == 0
    decreases |streams|
  {
    if streams != [] {
      NothingCharged(role, id, streams[..|streams| - 1]);
    }
  }

  /** In every run, what a session under flow control has received is the sum of what its
      streams are charged. */
  lemma SharesAddUp(role: Role, goaway: Option<nat>, setup: Setup, inputs: seq<Input>, id: nat, streams: seq<nat>)
    requires LawfulRun(Fresh(role, goaway), setup, inputs)
    requires Distinct(streams) && Covers(streams, HandleAll(Fresh(role, goaway), setup, inputs).events)
    ensures var c := HandleAll(Fresh(role, goaway), setup, inputs);
      id in c.sessions && !c.sessions[id].phase.Pending? && c.sessions[id].windows.Some? ==>
        c.sessions[id].windows.value.data.received == SumOfCharges(role, id, streams, c.events)
  {
    hide HandleAll, LawfulRun, Charge, Total, SumOfCharges;
    Conservation(role, goaway, setup, inputs, id, 0);
    TotalIsSum(role, id, streams, HandleAll(Fresh(role, goaway), setup, inputs).events);
  }

  lemma {:induction false} SameRole(role: Role, goaway: Option<nat>, setup: Setup, inputs: seq<Input>)
    ensures HandleAll(Fresh(role, goaway), setup, inputs).role == role
    decreases |inputs|
  {
    hide Handle;
    if inputs != [] {
      SameRole(role, goaway, setup, inputs[..|inputs| - 1]);
      RoleKept(HandleAll(Fresh(role, goaway), setup, inputs[..|inputs| - 1]), setup, inputs[|inputs| - 1]);
    }
  }

  lemma NewStreamRole(c: Conn, stream: nat, at: nat, isBidi: bool, payload: bytes)
    ensures NewStream(c, stream, at, isBidi, payload).role == c.role
  {
    hide PendingCount, S.BufferStream, S.AppendData, S.CheckReceivedData, S.CheckReceivedStream, S.AddReceivedStream,
        S.AddAndTrack;
  }

  lemma StreamDataRole(c: Conn, stream: nat, data: bytes, fin: bool)
    ensures StreamData(c, stream, data, fin).role == c.role
  {
    hide S.AppendData, S.CheckReceivedData, S.AddAndTrack, S.OnRemoteStreamClosed, S.Untrack, S.MarkFin;
  }

  lemma ResetRole(c: Conn, stream: nat, finalSize: nat)
    ensures Reset(c, stream, finalSize).role == c.role
  {
    hide Waits, ForgetIn, S.CheckReceivedData, ResetSession, Residual;
  }

  lemma EstablishRole(c: Conn, at: nat, setup: Setup)
    ensures Establish(c, at, setup).role == c.role
  {
    hide S.Deliver, Start, ClosedIds;
  }

  lemma RoleKept(c: Conn, setup: Setup, input: Input)
    ensures Handle(c, setup, input).role == c.role
  {
    hide NewStream, StreamData, Reset, Establish, PendingCount, S.BufferDatagram, S.OnDataConsumed;
    match input {
      case InNewStream(stream, session, isBidi, payload) => NewStreamRole(c, stream, session, isBidi, payload);
      case InOneChunk(stream, session, payload) => NewStreamRole(c, stream, session, false, payload);
      case InStreamData(stream, data, fin) => StreamDataRole(c, stream, data, fin);
      case InReset(stream, finalSize) => ResetRole(c, stream, finalSize);
      case InEstablish(session) => EstablishRole(c, session, setup);
      case _ =>
    }
  }

  // ---- No early stream is lost ----------------------------------------------------------------------

  /** Establishing a session hands over every stream that waited, with all it carried; if a
      limit is broken on the way, the report that closes the session lists every one of them. */
  lemma NoneLostOnEstablish(c: Conn, at: nat, setup: Setup, stream: nat)
    requires SessionInv(c, at) && at in c.sessions && c.sessions[at].phase.Pending? && stream in c.sessions[at].entries
    ensures var d, s := S.Deliver(Start(c.sessions[at], setup)), c.sessions[at];
      && (!d.violation ==> S.Occurs(S.EventsOf(stream, s.entries[stream]), d.events) && stream in d.session.associated)
      && (d.violation ==> stream in d.session.associated || stream in d.session.order)
      && Establish(c, at, setup).events
         == c.events + ([SessionEstablished(at)] + Wrap(at, d.events))
            + (if d.violation then [SessionClosed(at, d.session.associated, d.session.order)]
               else Datagrams(at, d.session.datagrams))
  {
    hide S.DeliverFrom, S.EventsOf, S.Occurs, Wrap, Datagrams, ClosedIds, Charge, Total;
    StartEffect(c.sessions[at], setup);
    var s := Start(c.sessions[at], setup).(order := []);
    S.NoStreamLost(s, Start(c.sessions[at], setup).order, stream);
  }
}
