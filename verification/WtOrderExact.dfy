/** The exact condition for the events of a stream to be in order. */
module WtOrderExact {
  import opened Bytes
  import S = WtSession
  import opened WtConnection
  import opened WtAdmission
  import opened WtAccounting
  import opened WtOrder
  import opened WtOrderRuns
  import C = WtConservation
  import D = WtDelivery

  // ---- Establishing a session ---------------------------------------------------------------------

  /** Delivery reaches stream `x`: the streams ahead of it break no limit, and it has a place. */
  predicate Reaches(s: S.Session, ids: seq<nat>, x: nat)
    decreases |ids|
  {
    if ids == [] then false
    else if ids[0] !in s.entries then Reaches(s, ids[1..], x)
    else
      var entry, t := s.entries[ids[0]], S.DropEntry(s, ids[0]);
      && S.CheckReceivedStream(t, entry.isBidi)
      && (ids[0] == x
          || ((entry.data == [] || S.CheckReceivedData(S.OpenedSession(t, ids[0], entry), |entry.data|))
              && Reaches(S.DeliveredSession(t, ids[0], entry), ids[1..], x)))
  }

  /** What delivery makes of a stream that waits, and of which `o` was reported before: nothing
      when it is not reached; otherwise it is opened, and perhaps over, or out of order. */
  ghost predicate Came(reached: bool, o: Course, o': Course, d: S.Delivery, x: nat) {
    if !reached then o' == o && x !in d.session.associated && x !in ClosedIds(d.closed)
    else if !o.Unseen? then o'.Broken?
    else x in d.session.associated && o' == if x in ClosedIds(d.closed) then Over else Under
  }

  lemma OwnCourse(id: nat, events: seq<Event>, x: nat, entry: S.Entry)
    ensures CourseOf(events, x).Unseen? ==>
      && CourseOf(events + Wrap(id, S.EventsOf(x, entry)), x) == (if entry.fin then Over else Under)
      && CourseOf(events + Wrap(id, [S.Open(entry.isBidi, x)]), x) == Under
    ensures !CourseOf(events, x).Unseen? ==>
      && CourseOf(events + Wrap(id, S.EventsOf(x, entry)), x) == Broken
      && CourseOf(events + Wrap(id, [S.Open(entry.isBidi, x)]), x) == Broken
  {
    hide CourseOf;
    var e1, e2, e3 := S.Open(entry.isBidi, x), S.Data(entry.isBidi, x, entry.data), S.End(entry.isBidi, x);
    var evs1 := events + [StreamEvent(id, e1)];
    var evs2 := if entry.data == [] then evs1 else evs1 + [StreamEvent(id, e2)];
    CourseSnoc(events, StreamEvent(id, e1), x);
    CourseSnoc(evs1, StreamEvent(id, e2), x);
    CourseSnoc(evs2, StreamEvent(id, e3), x);
    assert events + Wrap(id, S.EventsOf(x, entry)) == if entry.fin then evs2 + [StreamEvent(id, e3)] else evs2;
    assert events + Wrap(id, [e1]) == evs1;
  }

  lemma OthersEntry(id: nat, events: seq<Event>, y: nat, entry: S.Entry, x: nat)
    requires y != x
    ensures CourseOf(events + Wrap(id, S.EventsOf(y, entry)), x) == CourseOf(events, x)
    ensures CourseOf(events + Wrap(id, [S.Open(entry.isBidi, y)]), x) == CourseOf(events, x)
  {
    OthersCourse(events, Wrap(id, S.EventsOf(y, entry)), x);
    OthersCourse(events, Wrap(id, [S.Open(entry.isBidi, y)]), x);
  }

  /** A stream that does not wait is not delivered. */
  lemma {:induction false} NotDelivered(id: nat, s: S.Session, ids: seq<nat>, events: seq<Event>, x: nat)
    requires x !in s.entries
    ensures var d := S.DeliverFrom(s, ids);
      && CourseOf(events + Wrap(id, d.events), x) == CourseOf(events, x)
      && (x in d.session.associated <==> x in s.associated) && x !in ClosedIds(d.closed)
    decreases |ids|
  {
    hide CourseOf, S.DeliveredSession, S.OpenedSession, S.CheckReceivedStream, S.CheckReceivedData, ClosedIds, Wrap,
        S.EventsOf;
    D.OneClosed(x, true);
    D.NothingDelivered(id, events);
    if ids != [] {
      if ids[0] !in s.entries {
        NotDelivered(id, s, ids[1..], events, x);
      } else {
        var y, entry, t := ids[0], s.entries[ids[0]], S.DropEntry(s, ids[0]);
        D.RestoreScope(S.RestoreEntry(t, y, entry), ids[1..]);
        D.RestoreScope(S.OpenedSession(t, y, entry), ids[1..]);
        D.DeliveredScope(t, y, entry);
        OthersEntry(id, events, y, entry, x);
        var next, part := S.DeliveredSession(t, y, entry), S.EventsOf(y, entry);
        var rest := S.DeliverFrom(next, ids[1..]);
        NotDelivered(id, next, ids[1..], events + Wrap(id, part), x);
        D.WrapConcat(id, part, rest.events);
        assert events + Wrap(id, part) + Wrap(id, rest.events) == events + (Wrap(id, part) + Wrap(id, rest.events));
        D.OneClosed(y, entry.isBidi);
        D.ClosedIdsConcat(if entry.fin then [(y, entry.isBidi)] else [], rest.closed);
      }
    }
  }

  /** A stream that waits is opened, or waits on. */
  lemma {:induction false} DeliveredCourse(id: nat, s: S.Session, ids: seq<nat>, events: seq<Event>, x: nat)
    requires x in s.entries && x !in s.associated
    ensures var d := S.DeliverFrom(s, ids);
      Came(Reaches(s, ids, x), CourseOf(events, x), CourseOf(events + Wrap(id, d.events), x), d, x)
    decreases |ids|
  {
    hide CourseOf, S.DeliveredSession, S.OpenedSession, S.CheckReceivedStream, S.CheckReceivedData, ClosedIds, Wrap,
        S.EventsOf;
    D.OneClosed(x, true);
    D.NothingDelivered(id, events);
    if ids != [] {
      if ids[0] !in s.entries {
        DeliveredCourse(id, s, ids[1..], events, x);
      } else {
        var y, entry, t := ids[0], s.entries[ids[0]], S.DropEntry(s, ids[0]);
        D.RestoreScope(S.RestoreEntry(t, y, entry), ids[1..]);
        D.RestoreScope(S.OpenedSession(t, y, entry), ids[1..]);
        D.DeliveredScope(t, y, entry);
        var next, part := S.DeliveredSession(t, y, entry), S.EventsOf(y, entry);
        var now, rest := events + Wrap(id, part), S.DeliverFrom(next, ids[1..]);
        D.WrapConcat(id, part, rest.events);
        assert now + Wrap(id, rest.events) == events + (Wrap(id, part) + Wrap(id, rest.events));
        D.OneClosed(y, entry.isBidi);
        D.ClosedIdsConcat(if entry.fin then [(y, entry.isBidi)] else [], rest.closed);
        if y == x {
          OwnCourse(id, events, x, entry);
          NotDelivered(id, next, ids[1..], now, x);
        } else {
          OthersEntry(id, events, y, entry, x);
          DeliveredCourse(id, next, ids[1..], now, x);
        }
      }
    }
  }

  /** The stream waits for session `at`, and its establishment will open it. */
  predicate WillBeDelivered(c: Conn, setup: Setup, at: nat, x: nat) {
    && at in c.sessions && c.sessions[at].phase.Pending? && x in c.sessions[at].entries
    && var s := Start(c.sessions[at], setup); Reaches(s.(order := []), s.order, x)
  }

  /** The course of a stream after a delivery to session `at`, whether it waited there or not. */
  lemma CourseAfter(c: Conn, setup: Setup, at: nat, x: nat, once: bool)
    requires OrderInv(c, x, once) && at in c.sessions && c.sessions[at].phase.Pending?
    ensures var d := S.Deliver(Start(c.sessions[at], setup));
      var evs := c.events + ([SessionEstablished(at)] + Wrap(at, d.events));
      Came(WillBeDelivered(c, setup, at, x), CourseOf(c.events, x), CourseOf(evs, x), d, x)
  {
    hide CourseOf, S.DeliverFrom, ClosedIds, Start, Reaches;
    var s := Start(c.sessions[at], setup);
    C.StartEffect(c.sessions[at], setup);
    var evs := c.events + [SessionEstablished(at)];
    OthersCourse(c.events, [SessionEstablished(at)], x);
    var d := S.Deliver(s);
    assert c.events + ([SessionEstablished(at)] + Wrap(at, d.events)) == evs + Wrap(at, d.events);
    if x in s.entries {
      DeliveredCourse(at, s.(order := []), s.order, evs, x);
    } else {
      NotDelivered(at, s.(order := []), s.order, evs, x);
    }
  }

  lemma EstablishOrder(c: Conn, at: nat, setup: Setup, x: nat, once: bool)
    requires OrderInv(c, x, once)
    ensures var bad := WillBeDelivered(c, setup, at, x) && !CourseOf(c.events, x).Unseen?;
      && (!bad ==> OrderInv(Establish(c, at, setup), x, once))
      && (bad ==> CourseOf(Establish(c, at, setup).events, x).Broken?)
  {
    hide OrderInv, CourseOf, S.Deliver, Start, ClosedIds, Wrap, Datagrams, Terminate, SameFor, Reaches, WillBeDelivered;
    if at in c.sessions && c.sessions[at].phase.Pending? {
      var d := S.Deliver(Start(c.sessions[at], setup));
      var e := Unregister(Emit(Put(c, at, d.session), [SessionEstablished(at)] + Wrap(at, d.events)),
                          ClosedIds(d.closed));
      C.StartScope(c.sessions[at], setup);
      CourseAfter(c, setup, at, x, once);
      DeliveredOrder(c, setup, at, d, e, x, once);
      if WillBeDelivered(c, setup, at, x) && !CourseOf(c.events, x).Unseen? {
        TerminateGrows(e, at);
        BrokenStays(e, Establish(c, at, setup), x);
      } else {
        TerminateOrder(e, at, x, once);
        DatagramsOrder(e, at, d.session, x, once);
      }
    } else {
      NothingToDeliver(c, setup, at, x);
    }
  }

  lemma NothingToDeliver(c: Conn, setup: Setup, at: nat, x: nat)
    ensures WillBeDelivered(c, setup, at, x) ==> at in c.sessions && c.sessions[at].phase.Pending?
  {
  }

  lemma TerminateGrows(c: Conn, at: nat)
    ensures Longer(c, Terminate(c, at))
  {
  }

  lemma DeliveredOrder(c: Conn, setup: Setup, at: nat, d: S.Delivery, e: Conn, x: nat, once: bool)
    requires OrderInv(c, x, once) && at in c.sessions && c.sessions[at].phase.Pending?
    requires var evs := c.events + ([SessionEstablished(at)] + Wrap(at, d.events));
      Came(WillBeDelivered(c, setup, at, x), CourseOf(c.events, x), CourseOf(evs, x), d, x)
    requires d.session.phase.Established?
    requires e == Unregister(Emit(Put(c, at, d.session), [SessionEstablished(at)] + Wrap(at, d.events)),
                             ClosedIds(d.closed))
    ensures if WillBeDelivered(c, setup, at, x) && !CourseOf(c.events, x).Unseen? then CourseOf(e.events, x).Broken?
            else OrderInv(e, x, once)
  {
    hide CourseOf, ClosedIds, Wrap, Reaches, Start;
  }

  lemma DatagramsOrder(e: Conn, at: nat, s: S.Session, x: nat, once: bool)
    requires OrderInv(e, x, once) && at in e.sessions && e.sessions[at] == s
    ensures OrderInv(Emit(Put(e, at, s.(datagrams := [])), Datagrams(at, s.datagrams)), x, once)
  {
    hide OrderInv, Datagrams;
    PutOrder(e, at, s.(datagrams := []), x, once);
    EmitOrder(Put(e, at, s.(datagrams := [])), Datagrams(at, s.datagrams), x, once);
  }

  // ---- Other inputs -----------------------------------------------------------------------------------

  lemma OtherOrder(c: Conn, setup: Setup, input: Input, x: nat, once: bool)
    requires OrderInv(c, x, once) && !IsLocalBidi(c.role, x) && !IsLocalUni(c.role, x)
    requires input.InConnect? || input.InRefuse? || input.InConnectEnded? || input.InDrain? || input.InClose?
             || input.InDatagram? || input.InConsumed? || input.InRegisterLocal?
    ensures OrderInv(Handle(c, setup, input), x, once)
  {
    hide OrderInv, Terminate, Bury, S.OnDataConsumed, PendingCount, SameFor;
    var at := input.session;
    TerminateOrder(c, at, x, once);
    if at in c.sessions && c.sessions[at].phase.Pending? {
      BuryOrder(c, at, x, once);
    }
    if at !in c.sessions {
      NewSessionOrder(c, at, S.NEW, x, once);
      if input.InDatagram? {
        NewSessionOrder(c, at, S.BufferDatagram(S.NEW, input.payload), x, once);
      }
    } else {
      SessionOrder(c, at, input, x, once);
    }
    if input.InDatagram? {
      EmitOrder(c, [Datagram(at, input.payload)], x, once);
    }
  }

  lemma SessionOrder(c: Conn, at: nat, input: Input, x: nat, once: bool)
    requires OrderInv(c, x, once) && at in c.sessions && !IsLocalBidi(c.role, x) && !IsLocalUni(c.role, x)
    ensures OrderInv(Drain(c, at), x, once)
    ensures input.InDatagram? ==> OrderInv(Put(c, at, S.BufferDatagram(c.sessions[at], input.payload)), x, once)
    ensures input.InConsumed? ==> OrderInv(Put(c, at, S.OnDataConsumed(c.sessions[at], input.n)), x, once)
    ensures input.InRegisterLocal? ==> OrderInv(RegisterLocal(c, input.stream, at), x, once)
  {
    hide OrderInv, S.OnDataConsumed;
    var s := c.sessions[at];
    PutOrder(c, at, s.(phase := S.Draining), x, once);
    EmitOrder(Put(c, at, s.(phase := S.Draining)), [SessionDraining(at)], x, once);
    if input.InDatagram? {
      PutOrder(c, at, S.BufferDatagram(s, input.payload), x, once);
    } else if input.InConsumed? {
      AddedSame(s, x, input.n, true, x);
      PutOrder(c, at, S.OnDataConsumed(s, input.n), x, once);
    } else if input.InRegisterLocal? && input.stream != x {
      var r := s.(associated := s.associated + {input.stream});
      PutOrder(c, at, r, x, once);
      OthersRegistration(Put(c, at, r), input.stream, Registration(at, IsLocalBidi(c.role, input.stream)), x, once);
    }
  }

  // ---- Events are only added --------------------------------------------------------------------------

  lemma NewStreamGrows(c: Conn, stream: nat, at: nat, isBidi: bool, payload: bytes)
    ensures Longer(c, NewStream(c, stream, at, isBidi, payload))
  {
    hide PendingCount, S.BufferStream, S.AppendData, S.CheckReceivedData, S.CheckReceivedStream, S.AddReceivedStream,
        S.AddAndTrack;
  }

  lemma StreamDataGrows(c: Conn, stream: nat, data: bytes, fin: bool)
    ensures Longer(c, StreamData(c, stream, data, fin))
  {
    hide S.AppendData, S.CheckReceivedData, S.AddAndTrack, S.OnRemoteStreamClosed, S.Untrack, S.MarkFin;
  }

  lemma ResetGrows(c: Conn, stream: nat, finalSize: nat)
    ensures Longer(c, Reset(c, stream, finalSize))
  {
    hide Waits, ForgetIn, S.CheckReceivedData, ResetSession, Residual;
  }

  lemma EstablishGrows(c: Conn, at: nat, setup: Setup)
    ensures Longer(c, Establish(c, at, setup))
  {
    hide S.Deliver, Start, ClosedIds;
  }

  lemma HandleGrows(c: Conn, setup: Setup, input: Input)
    ensures Longer(c, Handle(c, setup, input))
  {
    hide NewStream, StreamData, Reset, Establish, PendingCount, S.BufferDatagram, S.OnDataConsumed;
    match input {
      case InNewStream(stream, session, isBidi, payload) => NewStreamGrows(c, stream, session, isBidi, payload);
      case InOneChunk(stream, session, payload) => NewStreamGrows(c, stream, session, false, payload);
      case InStreamData(stream, data, fin) => StreamDataGrows(c, stream, data, fin);
      case InReset(stream, finalSize) => ResetGrows(c, stream, finalSize);
      case InEstablish(session) => EstablishGrows(c, session, setup);
      case _ =>
    }
  }

  // ---- All runs -----------------------------------------------------------------------------------------

  /** The steps that put the events of stream `x` out of order. What was reported of it so far
      is its course; each step is known by the branch it takes and by what that branch reports.

      A stream is read as new and opened, though something was reported of it, or rejected though
      it is over; it ends in one chunk while it has to wait; it speaks though it was not opened;
      it waited, and is opened though something was reported of it; it is reset though it was not
      opened. */
  predicate Disorders(c: Conn, setup: Setup, input: Input, x: nat) {
    match input
    case InNewStream(stream, session, isBidi, payload) => stream == x && ReadBadly(c, x, session, isBidi, payload)
    case InOneChunk(stream, session, payload) => stream == x && EndsBadly(c, x, session, payload)
    case InStreamData(stream, data, fin) => stream == x && SpeaksBadly(c, x, data, fin)
    case InEstablish(session) => WillBeDelivered(c, setup, session, x) && !CourseOf(c.events, x).Unseen?
    case InReset(stream, finalSize) => stream == x && ResetsBadly(c, x, finalSize)
    case _ => false
  }

  /** The stream is read as new though something was reported of it. */
  ghost predicate Reread(c: Conn, input: Input, x: nat) {
    (input.InNewStream? || input.InOneChunk?) && input.stream == x && Reported(c.events, x)
  }

  ghost predicate NeverReread(c: Conn, setup: Setup, inputs: seq<Input>, x: nat) {
    forall n {:trigger inputs[n]} :: 0 <= n < |inputs| ==> !Reread(HandleAll(c, setup, inputs[..n]), inputs[n], x)
  }

  predicate IsPeers(role: Role, x: nat) {
    !IsLocalBidi(role, x) && !IsLocalUni(role, x)
  }

  lemma HandleOrder(c: Conn, setup: Setup, input: Input, x: nat, once: bool)
    requires OrderInv(c, x, once) && IsPeers(c.role, x) && C.Lawful(c, input) && forall id: nat :: SessionInv(c, id)
    requires once ==> !Reread(c, input, x)
    ensures !Disorders(c, setup, input, x) ==> OrderInv(Handle(c, setup, input), x, once)
    ensures Disorders(c, setup, input, x) ==> CourseOf(Handle(c, setup, input).events, x).Broken?
  {
    hide OrderInv, SessionInv, CourseOf, NewStream, OneChunk, StreamData, Reset, Establish, ReadBadly, EndsBadly,
        SpeaksBadly,
         ResetsBadly, WillBeDelivered, MayBeNew, NotResetYet;
    match input {
      case InNewStream(y, session, isBidi, payload) =>
        if y == x {
          IsUntaken(c, x, once);
          UnreportedUnseen(c.events, x);
          OwnNew(c, x, session, isBidi, payload, once);
        } else {
          OthersNew(c, y, session, isBidi, payload, x, once);
        }
      case InOneChunk(y, session, payload) =>
        if y == x {
          IsUntaken(c, x, once);
          UnreportedUnseen(c.events, x);
          OwnOneChunk(c, x, session, payload, once);
        } else {
          OthersOneChunk(c, y, session, payload, x, once);
        }
      case InStreamData(y, data, fin) =>
        if y == x {
          OwnData(c, x, data, fin, once);
        } else {
          OthersData(c, y, data, fin, x, once);
        }
      case InReset(y, finalSize) =>
        if y == x {
          OwnReset(c, x, finalSize, once);
        } else {
          OthersReset(c, y, finalSize, x, once);
        }
      case InEstablish(session) => EstablishOrder(c, session, setup, x, once);
      case _ => OtherOrder(c, setup, input, x, once);
    }
  }

  /** No step of the run disorders the stream. */
  ghost predicate NeverDisordered(c: Conn, setup: Setup, inputs: seq<Input>, x: nat) {
    forall n {:trigger inputs[n]} :: 0 <= n < |inputs|
        ==> !Disorders(HandleAll(c, setup, inputs[..n]), setup, inputs[n], x)
  }

  lemma DisorderedSnoc(c: Conn, setup: Setup, inputs: seq<Input>, x: nat)
    requires inputs != []
    ensures var n := |inputs| - 1;
      NeverDisordered(c, setup, inputs, x)
      <==>
          && NeverDisordered(c, setup, inputs[..n], x)
          && !Disorders(HandleAll(c, setup, inputs[..n]), setup, inputs[n], x)
  {
    hide Disorders, HandleAll;
    var n := |inputs| - 1;
    forall i | 0 <= i < n
      ensures inputs[..n][..i] == inputs[..i] && inputs[..n][i] == inputs[i]
    {
    }
    if NeverDisordered(c, setup, inputs, x) {
      forall i | 0 <= i < n
        ensures !Disorders(HandleAll(c, setup, inputs[..n][..i]), setup, inputs[..n][i], x)
      {
        assert !Disorders(HandleAll(c, setup, inputs[..i]), setup, inputs[i], x);
      }
    }
    if NeverDisordered(c, setup, inputs[..n], x) && !Disorders(HandleAll(c, setup, inputs[..n]), setup, inputs[n], x) {
      forall i | 0 <= i < |inputs|
        ensures !Disorders(HandleAll(c, setup, inputs[..i]), setup, inputs[i], x)
      {
        if i < n {
          assert !Disorders(HandleAll(c, setup, inputs[..n][..i]), setup, inputs[..n][i], x);
        }
      }
    }
  }

  lemma RereadSnoc(c: Conn, setup: Setup, inputs: seq<Input>, x: nat)
    requires inputs != [] && NeverReread(c, setup, inputs, x)
    ensures var n := |inputs| - 1;
      NeverReread(c, setup, inputs[..n], x) && !Reread(HandleAll(c, setup, inputs[..n]), inputs[n], x)
  {
    hide Reread, HandleAll;
    var n := |inputs| - 1;
    forall i | 0 <= i < n
      ensures !Reread(HandleAll(c, setup, inputs[..n][..i]), inputs[..n][i], x)
    {
      assert inputs[..n][..i] == inputs[..i] && inputs[..n][i] == inputs[i];
      assert !Reread(HandleAll(c, setup, inputs[..i]), inputs[i], x);
    }
    assert inputs[n] == inputs[|inputs| - 1];
  }

  lemma {:induction false} OrderOverRuns(role: Role, goaway: Option<nat>, setup: Setup, inputs: seq<Input>, x: nat,
                                         once: bool)
    requires C.LawfulRun(Fresh(role, goaway), setup, inputs) && IsPeers(role, x)
    requires once ==> NeverReread(Fresh(role, goaway), setup, inputs, x)
    ensures var c := HandleAll(Fresh(role, goaway), setup, inputs);
      if NeverDisordered(Fresh(role, goaway), setup, inputs, x) then OrderInv(c, x, once)
          else CourseOf(c.events, x).Broken?
    decreases |inputs|
  {
    hide Handle, OrderInv, CourseOf, NeverDisordered, Disorders, NeverReread, Reread, C.LawfulRun, C.Lawful, SessionInv;
    if inputs == [] {
      FreshOrder(role, goaway, setup, x, once);
    } else {
      var n := |inputs| - 1;
      var c := HandleAll(Fresh(role, goaway), setup, inputs[..n]);
      C.LawfulBefore(Fresh(role, goaway), setup, inputs);
      DisorderedSnoc(Fresh(role, goaway), setup, inputs, x);
      if once {
        RereadSnoc(Fresh(role, goaway), setup, inputs, x);
      }
      OrderOverRuns(role, goaway, setup, inputs[..n], x, once);
      C.SameRole(role, goaway, setup, inputs[..n]);
      forall id: nat
        ensures SessionInv(c, id)
      {
        C.BooksOverRuns(role, goaway, setup, inputs[..n], id);
      }
      if NeverDisordered(Fresh(role, goaway), setup, inputs[..n], x) {
        HandleOrder(c, setup, inputs[n], x, once);
      } else {
        HandleGrows(c, setup, inputs[n]);
        BrokenStays(c, Handle(c, setup, inputs[n]), x);
      }
    }
  }

  lemma FreshOrder(role: Role, goaway: Option<nat>, setup: Setup, x: nat, once: bool)
    ensures OrderInv(Fresh(role, goaway), x, once) && NeverDisordered(Fresh(role, goaway), setup, [], x)
  {
  }

  /** When the events of a stream are in order: over every run of a connection, and for every
      stream of the peer, its octets, its end and its reset come after its one opening, and nothing
      follows its end, its reset or its rejection, if and only if no step of the run disorders it.
      The run may read a stream again that was refused or whose session has ended. */
  lemma OrderIsExact(role: Role, goaway: Option<nat>, setup: Setup, inputs: seq<Input>, x: nat)
    requires C.LawfulRun(Fresh(role, goaway), setup, inputs) && IsPeers(role, x)
    ensures InOrder(HandleAll(Fresh(role, goaway), setup, inputs).events, x)
       <==> NeverDisordered(Fresh(role, goaway), setup, inputs, x)
  {
    hide HandleAll, NeverDisordered, C.LawfulRun, CourseOf, InOrder;
    OrderOverRuns(role, goaway, setup, inputs, x, false);
    CourseMeans(HandleAll(Fresh(role, goaway), setup, inputs).events, x);
    NotBroken(HandleAll(Fresh(role, goaway), setup, inputs), x, false);
  }

  // ---- Streams that are read as new but once ----------------------------------------------------------------

  /** The same steps for a stream that is never read again; they need no look at the events. It
      ends in one chunk while it has to wait, or it speaks or is reset although its session, which
      is not pending, does not have it. */
  predicate Misplaces(c: Conn, input: Input, x: nat) {
    match input
    case InOneChunk(stream, session, payload) => stream == x && Held(c, session, payload)
    case InStreamData(stream, data, fin) => stream == x && SpeaksUnopened(c, x, data, fin)
    case InReset(stream, finalSize) => stream == x && ResetsUnopened(c, x, finalSize)
    case _ => false
  }

  ghost predicate NeverMisplaced(c: Conn, setup: Setup, inputs: seq<Input>, x: nat) {
    forall n {:trigger inputs[n]} :: 0 <= n < |inputs| ==> !Misplaces(HandleAll(c, setup, inputs[..n]), inputs[n], x)
  }

  lemma SameSteps(c: Conn, setup: Setup, input: Input, x: nat)
    requires OrderInv(c, x, true) && !Reread(c, input, x)
    ensures Disorders(c, setup, input, x) <==> Misplaces(c, input, x)
  {
    hide CourseOf, MayWait, S.CheckReceivedStream, S.CheckReceivedData, Residual, S.AppendData, OverLimit, Reaches,
        Start;
    UnreportedUnseen(c.events, x);
    if input.InOneChunk? {
      NotBoth(c, input.session);
    }
  }

  lemma MisplacedSnoc(c: Conn, setup: Setup, inputs: seq<Input>, x: nat)
    requires inputs != []
    ensures var n := |inputs| - 1;
      NeverMisplaced(c, setup, inputs, x)
      <==> NeverMisplaced(c, setup, inputs[..n], x) && !Misplaces(HandleAll(c, setup, inputs[..n]), inputs[n], x)
  {
    hide Misplaces, HandleAll;
    var n := |inputs| - 1;
    if NeverMisplaced(c, setup, inputs, x) {
      forall i | 0 <= i < n
        ensures !Misplaces(HandleAll(c, setup, inputs[..n][..i]), inputs[..n][i], x)
      {
        assert inputs[..n][..i] == inputs[..i] && inputs[..n][i] == inputs[i];
        assert !Misplaces(HandleAll(c, setup, inputs[..i]), inputs[i], x);
      }
      assert inputs[n] == inputs[|inputs| - 1];
    }
    if NeverMisplaced(c, setup, inputs[..n], x) && !Misplaces(HandleAll(c, setup, inputs[..n]), inputs[n], x) {
      forall i | 0 <= i < |inputs|
        ensures !Misplaces(HandleAll(c, setup, inputs[..i]), inputs[i], x)
      {
        if i < n {
          assert inputs[..n][..i] == inputs[..i] && inputs[..n][i] == inputs[i];
          assert !Misplaces(HandleAll(c, setup, inputs[..n][..i]), inputs[..n][i], x);
        }
      }
    }
  }

  lemma {:induction false} SameRuns(role: Role, goaway: Option<nat>, setup: Setup, inputs: seq<Input>, x: nat)
    requires C.LawfulRun(Fresh(role, goaway), setup, inputs) && IsPeers(role, x)
    requires NeverReread(Fresh(role, goaway), setup, inputs, x)
    ensures NeverDisordered(Fresh(role, goaway), setup, inputs, x)
        <==> NeverMisplaced(Fresh(role, goaway), setup, inputs, x)
    decreases |inputs|
  {
    hide HandleAll, OrderInv, CourseOf, NeverDisordered, Disorders, NeverMisplaced, Misplaces, NeverReread, Reread,
         C.LawfulRun, C.Lawful;
    if inputs == [] {
      NothingWrong(role, goaway, setup, x);
    } else {
      var n := |inputs| - 1;
      C.LawfulBefore(Fresh(role, goaway), setup, inputs);
      RereadSnoc(Fresh(role, goaway), setup, inputs, x);
      DisorderedSnoc(Fresh(role, goaway), setup, inputs, x);
      MisplacedSnoc(Fresh(role, goaway), setup, inputs, x);
      SameRuns(role, goaway, setup, inputs[..n], x);
      OrderOverRuns(role, goaway, setup, inputs[..n], x, true);
      if NeverDisordered(Fresh(role, goaway), setup, inputs[..n], x) {
        SameSteps(HandleAll(Fresh(role, goaway), setup, inputs[..n]), setup, inputs[n], x);
      }
    }
  }

  lemma NothingWrong(role: Role, goaway: Option<nat>, setup: Setup, x: nat)
    ensures NeverDisordered(Fresh(role, goaway), setup, [], x) && NeverMisplaced(Fresh(role, goaway), setup, [], x)
  {
  }

  /** For a stream that is never read again: its events are in order if and only if it neither
      ends in one chunk while it has to wait, nor speaks, nor is reset, although the session that
      it is registered with does not have it. */
  lemma OrderWhenReadOnce(role: Role, goaway: Option<nat>, setup: Setup, inputs: seq<Input>, x: nat)
    requires C.LawfulRun(Fresh(role, goaway), setup, inputs) && IsPeers(role, x)
    requires NeverReread(Fresh(role, goaway), setup, inputs, x)
    ensures InOrder(HandleAll(Fresh(role, goaway), setup, inputs).events, x)
       <==> NeverMisplaced(Fresh(role, goaway), setup, inputs, x)
  {
    hide HandleAll, NeverDisordered, NeverMisplaced, NeverReread, C.LawfulRun, InOrder;
    OrderIsExact(role, goaway, setup, inputs, x);
    SameRuns(role, goaway, setup, inputs, x);
  }

  /** Then the session of a registered stream has it if and only if the stream was opened. */
  lemma OpenMeansOpened(role: Role, goaway: Option<nat>, setup: Setup, inputs: seq<Input>, x: nat)
    requires C.LawfulRun(Fresh(role, goaway), setup, inputs) && IsPeers(role, x)
    requires NeverReread(Fresh(role, goaway), setup, inputs, x) && NeverMisplaced(Fresh(role, goaway), setup, inputs, x)
    ensures var c := HandleAll(Fresh(role, goaway), setup, inputs);
      x in c.streams ==> (IsOpen(c, x) <==> OpensBefore(c.events, x, |c.events|))
  {
    hide HandleAll, NeverDisordered, NeverMisplaced, NeverReread, C.LawfulRun, CourseOf, InOrder, OpensBefore,
        ClosesBefore;
    SameRuns(role, goaway, setup, inputs, x);
    OrderOverRuns(role, goaway, setup, inputs, x, true);
    var c := HandleAll(Fresh(role, goaway), setup, inputs);
    CourseMeans(c.events, x);
    OnceOpened(c, x);
  }

  lemma OnceOpened(c: Conn, x: nat)
    requires OrderInv(c, x, true)
    ensures !CourseOf(c.events, x).Broken?
    ensures x in c.streams ==> CourseOf(c.events, x) == if IsOpen(c, x) then Under else Unseen
  {
    hide CourseOf;
  }

  lemma NotBroken(c: Conn, x: nat, once: bool)
    ensures OrderInv(c, x, once) ==> !CourseOf(c.events, x).Broken?
  {
  }
}
