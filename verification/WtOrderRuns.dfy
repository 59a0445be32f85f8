/** When the events of a stream are in order, over all runs of a connection. */
module WtOrderRuns {
  import opened Bytes
  import S = WtSession
  import opened WtConnection
  import opened WtAdmission
  import opened WtAccounting
  import opened WtOrder
  import C = WtConservation
  import D = WtDelivery

  // ---- New streams ------------------------------------------------------------------------------

  lemma OthersAssociate(c: Conn, y: nat, at: nat, isBidi: bool, x: nat, once: bool)
    requires OrderInv(c, x, once) && y != x
    ensures OrderInv(Associate(c, y, at, isBidi).0, x, once)
  {
    hide OrderInv, PendingCount, MayWait;
    AssociateIs(c, y, at, isBidi);
    var (d, outcome) := Associate(c, y, at, isBidi);
    if outcome.Buffered? || outcome.Joined? {
      if at in c.sessions {
        PutOrder(c, at, d.sessions[at], x, once);
      } else {
        NewSessionOrder(c, at, d.sessions[at], x, once);
      }
    }
  }

  lemma OthersNew(c: Conn, y: nat, at: nat, isBidi: bool, payload: bytes, x: nat, once: bool)
    requires OrderInv(c, x, once) && y != x
    ensures OrderInv(NewStream(c, y, at, isBidi, payload), x, once)
  {
    hide OrderInv, Associate, Hold, Accept, Terminate, S.CheckReceivedStream, S.AddReceivedStream, SameFor;
    var start := c.(streams := c.streams[y := Registration(at, isBidi)]);
    OthersRegistration(c, y, Registration(at, isBidi), x, once);
    OthersAssociate(start, y, at, isBidi, x, once);
    var (d, outcome) := Associate(start, y, at, isBidi);
    var u := Unregister(d, {y});
    UnregisterOrder(d, {y}, x, once);
    match outcome {
      case Gone => EmitOrder(u, [Rejected(y, true)], x, once);
      case Overflow => EmitOrder(u, [Rejected(y, false)], x, once);
      case Buffered =>
        if at in d.sessions {
          OthersHold(d, at, y, payload, x, once);
        }
      case Joined =>
        if at in d.sessions {
          TerminateOrder(u, at, x, once);
          AddedSame(d.sessions[at], y, 0, isBidi, x);
          var e := Put(d, at, S.AddReceivedStream(d.sessions[at], isBidi));
          PutOrder(d, at, S.AddReceivedStream(d.sessions[at], isBidi), x, once);
          EmitOrder(e, [StreamEvent(at, S.Open(isBidi, y))], x, once);
          AcceptOrder(Emit(e, [StreamEvent(at, S.Open(isBidi, y))]), at, y, isBidi, payload, x, once);
        }
    }
  }

  /** Nobody has the stream. */
  ghost predicate Untaken(c: Conn, x: nat) {
    && x !in c.streams && !CourseOf(c.events, x).Broken?
    && (forall id :: id in c.sessions ==>
          x !in c.sessions[id].associated && (c.sessions[id].phase.Pending? ==> x !in c.sessions[id].entries))
  }

  lemma IsUntaken(c: Conn, x: nat, once: bool)
    requires OrderInv(c, x, once) && MayBeNew(c, x) && forall id: nat :: SessionInv(c, id)
    ensures Untaken(c, x)
  {
    hide Charge, Total, Concluded, CourseOf;
    forall id | id in c.sessions
      ensures x !in c.sessions[id].associated && (c.sessions[id].phase.Pending? ==> x !in c.sessions[id].entries)
    {
      assert SessionInv(c, id);
    }
  }

  lemma OwnRegistration(c: Conn, x: nat, at: nat, isBidi: bool, once: bool)
    requires once ==> CourseOf(c.events, x).Unseen?
    requires Untaken(c, x)
    ensures OrderInv(c.(streams := c.streams[x := Registration(at, isBidi)]), x, once)
  {
    hide CourseOf;
  }

  lemma OwnWaits(c: Conn, x: nat, at: nat, isBidi: bool, once: bool)
    requires once ==> CourseOf(c.events, x).Unseen?
    requires Untaken(c, x)
    ensures var start := c.(streams := c.streams[x := Registration(at, isBidi)]);
      var (d, outcome) := Associate(start, x, at, isBidi);
      && d.events == c.events
      && (outcome.Buffered? ==>
            && OrderInv(d, x, once) && at in d.sessions && d.sessions[at].phase.Pending?
            && x in d.sessions[at].entries && d.sessions[at].entries[x].data == [])
      && (outcome.Gone? || outcome.Overflow? ==> d == start)
  {
    hide CourseOf, PendingCount;
  }

  lemma OwnJoins(c: Conn, x: nat, at: nat, isBidi: bool, once: bool)
    requires once ==> CourseOf(c.events, x).Unseen?
    requires Untaken(c, x) && at in c.sessions && c.sessions[at].phase.Established?
    ensures var d := Put(c.(streams := c.streams[x := Registration(at, isBidi)]), at,
                         c.sessions[at].(associated := c.sessions[at].associated + {x}));
      && OrderInv(Unregister(d, {x}), x, once)
      && var e := Emit(Put(d, at, S.AddReceivedStream(d.sessions[at], isBidi)), [StreamEvent(at, S.Open(isBidi, x))]);
         && (CourseOf(c.events, x).Unseen? ==> OrderInv(e, x, once) && IsOpen(e, x) && e.streams[x].session == at)
         && (!CourseOf(c.events, x).Unseen? ==> CourseOf(e.events, x).Broken?)
  {
    hide CourseOf, S.AddReceivedStream;
    CourseSnoc(c.events, StreamEvent(at, S.Open(isBidi, x)), x);
    var s := c.sessions[at].(associated := c.sessions[at].associated + {x});
    JoinedSession(s, isBidi);
  }

  lemma JoinedSession(s: S.Session, isBidi: bool)
    ensures var r := S.AddReceivedStream(s, isBidi);
      r.associated == s.associated && r.phase == s.phase && r.entries == s.entries
  {
  }

  /** The stream is opened though something was reported of it, or rejected after its end. */
  predicate ReadBadly(c: Conn, x: nat, at: nat, isBidi: bool, payload: bytes) {
    || (WillOpen(c, at, isBidi) && !CourseOf(c.events, x).Unseen?)
    || (WillBeRefused(c, at, payload) && CourseOf(c.events, x).Over?)
  }

  /** The stream itself: refused, waiting, or opened. */
  lemma OwnNew(c: Conn, x: nat, at: nat, isBidi: bool, payload: bytes, once: bool)
    requires once ==> CourseOf(c.events, x).Unseen?
    requires Untaken(c, x)
    ensures var d := NewStream(c, x, at, isBidi, payload);
      && (!ReadBadly(c, x, at, isBidi, payload) ==> OrderInv(d, x, once))
      && (ReadBadly(c, x, at, isBidi, payload) ==> CourseOf(d.events, x).Broken?)
      && (Held(c, at, payload) ==>
            CourseOf(d.events, x) == CourseOf(c.events, x) && at in d.sessions && d.sessions[at].phase.Pending?)
      && (MayOpen(c, at, isBidi, payload) && CourseOf(c.events, x).Unseen? ==> IsOpen(d, x))
  {
    hide OrderInv, CourseOf, Associate, Hold, Accept, Terminate, S.CheckReceivedStream, S.CheckReceivedData,
        S.AddReceivedStream,
         MayWait, Untaken, S.AppendData;
    var start := c.(streams := c.streams[x := Registration(at, isBidi)]);
    OwnRegistration(c, x, at, isBidi, once);
    OwnWaits(c, x, at, isBidi, once);
    AssociateIs(start, x, at, isBidi);
    SameAdmission(c, start, at);
    NotBoth(c, at);
    var (d, outcome) := Associate(start, x, at, isBidi);
    match outcome {
      case Gone => Dismissed(c, x, at, isBidi, true, once);
      case Overflow => Dismissed(c, x, at, isBidi, false, once);
      case Buffered =>
        AssociatedHere(start, x, at, isBidi);
        HoldsAll(d, at, x, payload);
        OwnHold(d, at, payload, x, once);
        HoldPhase(d, at, x, payload);
      case Joined =>
        OwnJoins(c, x, at, isBidi, once);
        TerminateOrder(Unregister(d, {x}), at, x, once);
        SameDataWindow(c.sessions[at], isBidi, c.sessions[at].associated + {x}, |payload|);
        var e := Emit(Put(d, at, S.AddReceivedStream(d.sessions[at], isBidi)), [StreamEvent(at, S.Open(isBidi, x))]);
        AcceptGrows(e, at, x, isBidi, payload);
        if CourseOf(c.events, x).Unseen? {
          AcceptOrder(e, at, x, isBidi, payload, x, once);
          if MayOpen(c, at, isBidi, payload) {
            AcceptedOpen(e, at, x, isBidi, payload);
          }
        } else {
          BrokenStays(e, Accept(e, at, x, isBidi, payload), x);
        }
    }
  }

  /** Events are only added. */
  predicate Longer(c: Conn, d: Conn) {
    c.events <= d.events
  }

  lemma BrokenStays(c: Conn, d: Conn, x: nat)
    requires Longer(c, d) && CourseOf(c.events, x).Broken?
    ensures CourseOf(d.events, x).Broken?
  {
    StaysBroken(c.events, d.events[|c.events|..], x);
    assert d.events == c.events + d.events[|c.events|..];
  }

  lemma AcceptGrows(c: Conn, at: nat, y: nat, isBidi: bool, data: bytes)
    ensures Longer(c, Accept(c, at, y, isBidi, data))
  {
    hide S.CheckReceivedData;
  }

  /** An entry without octets takes as many as an entry may hold. */
  lemma HoldsAll(c: Conn, at: nat, x: nat, payload: bytes)
    requires at in c.sessions && x in c.sessions[at].entries && c.sessions[at].entries[x].data == []
    requires c.sessions[at].phase.Pending? && x in c.streams && c.streams[x].session == at
    ensures Overflows(c, x, payload) <==> |payload| > S.MAX_BUFFERED_STREAM_BYTES
    ensures !Overflows(c, x, payload) ==> Hold(c, at, x, payload).events == c.events
  {
  }

  lemma NotBoth(c: Conn, at: nat)
    ensures MayWait(c, at) ==> at !in c.sessions || c.sessions[at].phase.Pending?
  {
    hide PendingCount;
  }

  lemma AssociatedHere(c: Conn, x: nat, at: nat, isBidi: bool)
    requires x in c.streams && c.streams[x].session == at
    ensures var d := Associate(c, x, at, isBidi).0; d.streams == c.streams
  {
    hide PendingCount;
  }

  lemma Dismissed(c: Conn, x: nat, at: nat, isBidi: bool, gone: bool, once: bool)
    requires once ==> CourseOf(c.events, x).Unseen?
    requires Untaken(c, x)
    ensures var d := Emit(Unregister(c.(streams := c.streams[x := Registration(at, isBidi)]), {x}),
                          [Rejected(x, gone)]);
      if CourseOf(c.events, x).Over? then CourseOf(d.events, x).Broken? else OrderInv(d, x, once)
  {
    hide CourseOf;
    var start := c.(streams := c.streams[x := Registration(at, isBidi)]);
    OwnRegistration(c, x, at, isBidi, once);
    CourseSnoc(c.events, Rejected(x, gone), x);
    if !CourseOf(c.events, x).Over? {
      LeaveOrder(start, Rejected(x, gone), x, once);
    }
  }

  lemma HoldPhase(c: Conn, at: nat, y: nat, data: bytes)
    requires at in c.sessions
    ensures at in Hold(c, at, y, data).sessions && Hold(c, at, y, data).sessions[at].phase == c.sessions[at].phase
  {
  }

  lemma AcceptedOpen(c: Conn, at: nat, x: nat, isBidi: bool, payload: bytes)
    requires IsOpen(c, x) && c.streams[x].session == at
        && (payload == [] || S.CheckReceivedData(c.sessions[at], |payload|))
    ensures IsOpen(Accept(c, at, x, isBidi, payload), x)
  {
    hide S.CheckReceivedData;
  }

  // ---- Streams that end in one chunk ------------------------------------------------------------------

  lemma OthersOneChunk(c: Conn, y: nat, at: nat, payload: bytes, x: nat, once: bool)
    requires OrderInv(c, x, once) && y != x
    ensures OrderInv(OneChunk(c, y, at, payload), x, once)
  {
    hide OrderInv, NewStream;
    OthersNew(c, y, at, false, payload, x, once);
    var d := NewStream(c, y, at, false, payload);
    UnregisterOrder(d, {y}, x, once);
    EmitOrder(Unregister(d, {y}), [StreamEvent(at, S.End(false, y))], x, once);
  }

  /** The stream ends in one chunk and has to wait, so its end is reported, though it is not open. */
  predicate EndsBadly(c: Conn, x: nat, at: nat, payload: bytes) {
    ReadBadly(c, x, at, false, payload) || (Held(c, at, payload) && !CourseOf(c.events, x).Under?)
  }

  lemma OwnOneChunk(c: Conn, x: nat, at: nat, payload: bytes, once: bool)
    requires once ==> CourseOf(c.events, x).Unseen?
    requires Untaken(c, x)
    ensures !EndsBadly(c, x, at, payload) ==> OrderInv(OneChunk(c, x, at, payload), x, once)
    ensures EndsBadly(c, x, at, payload) ==> CourseOf(OneChunk(c, x, at, payload).events, x).Broken?
  {
    hide CourseOf, NewStream, MayWait, S.CheckReceivedStream, S.CheckReceivedData;
    var d, e := NewStream(c, x, at, false, payload), StreamEvent(at, S.End(false, x));
    OwnNew(c, x, at, false, payload, once);
    StaysRegistered(c, x, at, false, payload);
    NewStreamOwner(c, x, at, false, payload);
    NotBoth(c, at);
    CourseSnoc(d.events, e, x);
    if x in d.streams && !EndsBadly(c, x, at, payload) {
      LeaveOrder(d, e, x, once);
    }
  }

  // ---- Octets and ends ------------------------------------------------------------------------------------

  lemma EndedSame(c: Conn, at: nat, y: nat, isBidi: bool, x: nat, once: bool)
    requires OrderInv(c, x, once) && y != x
    ensures OrderInv(Emit(EndStream(c, at, y, isBidi), [StreamEvent(at, S.End(isBidi, y))]), x, once)
  {
    hide OrderInv, S.OnRemoteStreamClosed, S.Untrack, SameFor;
    var d := Unregister(c, {y});
    UnregisterOrder(c, {y}, x, once);
    if at in d.sessions {
      AddedSame(d.sessions[at], y, 0, isBidi, x);
      PutOrder(d, at, S.Untrack(S.OnRemoteStreamClosed(d.sessions[at], isBidi), y), x, once);
    }
    EmitOrder(EndStream(c, at, y, isBidi), [StreamEvent(at, S.End(isBidi, y))], x, once);
  }

  lemma OthersData(c: Conn, y: nat, data: bytes, fin: bool, x: nat, once: bool)
    requires OrderInv(c, x, once) && y != x
    ensures OrderInv(StreamData(c, y, data, fin), x, once)
  {
    hide OrderInv, Hold, Accept, EndStream, S.CheckReceivedData, S.MarkFin, SameFor;
    if y in c.streams {
      var r := c.streams[y];
      if r.session in c.sessions && c.sessions[r.session].phase.Pending? {
        OthersHold(c, r.session, y, data, x, once);
        var d := Hold(c, r.session, y, data);
        if r.session in d.sessions {
          AddedSame(d.sessions[r.session], y, 0, true, x);
          PutOrder(d, r.session, S.MarkFin(d.sessions[r.session], y), x, once);
        }
      } else {
        AcceptOrder(c, r.session, y, r.isBidi, data, x, once);
        EndedSame(Accept(c, r.session, y, r.isBidi, data), r.session, y, r.isBidi, x, once);
      }
    }
  }

  /** The octets would break the data limit of the session. */
  predicate OverLimit(c: Conn, at: nat, data: bytes) {
    data != [] && at in c.sessions && !S.CheckReceivedData(c.sessions[at], |data|)
  }

  /** Octets or an end are reported although the session does not have the stream: it is
      registered, and its session is not pending. */
  predicate SpeaksUnopened(c: Conn, x: nat, data: bytes, fin: bool) {
    x in c.streams && !IsOpen(c, x) &&
    var r := c.streams[x];
    && !(r.session in c.sessions && c.sessions[r.session].phase.Pending?)
    && if OverLimit(c, r.session, data) then fin && !r.isBidi else data != [] || fin
  }

  /** ... although it was not opened, or octets that waited are rejected after its end. */
  predicate SpeaksBadly(c: Conn, x: nat, data: bytes, fin: bool) {
    || (SpeaksUnopened(c, x, data, fin) && !CourseOf(c.events, x).Under?)
    || (Overflows(c, x, data) && CourseOf(c.events, x).Over?)
  }

  lemma OwnEnd(c: Conn, x: nat, once: bool)
    requires OrderInv(c, x, once) && IsOpen(c, x) && !IsLocalBidi(c.role, x)
    ensures var r := c.streams[x];
      OrderInv(Emit(EndStream(c, r.session, x, r.isBidi), [StreamEvent(r.session, S.End(r.isBidi, x))]), x, once)
  {
    hide CourseOf, S.OnRemoteStreamClosed, S.Untrack, SameFor;
    var r := c.streams[x];
    var e := StreamEvent(r.session, S.End(r.isBidi, x));
    var d := Unregister(c, {x});
    LeaveOrder(c, e, x, once);
    AddedSame(d.sessions[r.session], x, 0, r.isBidi, x);
    var s := S.Untrack(S.OnRemoteStreamClosed(d.sessions[r.session], r.isBidi), x);
    PutOrder(Emit(d, [e]), r.session, s, x, once);
    assert Put(Emit(d, [e]), r.session, s) == Emit(Put(d, r.session, s), [e]);
  }

  /** Octets and the end of the stream itself, when it is open. */
  lemma OpenData(c: Conn, x: nat, data: bytes, fin: bool, once: bool)
    requires OrderInv(c, x, once) && IsOpen(c, x) && !IsLocalBidi(c.role, x)
        && !c.sessions[c.streams[x].session].phase.Pending?
    ensures OrderInv(StreamData(c, x, data, fin), x, once)
  {
    hide OrderInv, Accept, EndStream, S.CheckReceivedData;
    var r := c.streams[x];
    AcceptOrder(c, r.session, x, r.isBidi, data, x, once);
    AcceptedOrGone(c, x, data);
    var d := Accept(c, r.session, x, r.isBidi, data);
    if x in d.streams {
      OwnEnd(d, x, once);
    }
  }

  lemma AcceptedOrGone(c: Conn, x: nat, data: bytes)
    requires IsOpen(c, x)
    ensures var r := c.streams[x];
      var d := Accept(c, r.session, x, r.isBidi, data);
      d.role == c.role && (x in d.streams ==> IsOpen(d, x) && d.streams[x] == r)
  {
    hide S.CheckReceivedData;
  }

  /** Early octets of the stream itself. */
  lemma WaitingData(c: Conn, x: nat, data: bytes, fin: bool, once: bool)
    requires OrderInv(c, x, once) && x in c.streams && !IsLocalUni(c.role, x)
    requires c.streams[x].session in c.sessions && c.sessions[c.streams[x].session].phase.Pending?
    ensures !SpeaksBadly(c, x, data, fin) ==> OrderInv(StreamData(c, x, data, fin), x, once)
    ensures SpeaksBadly(c, x, data, fin) ==> CourseOf(StreamData(c, x, data, fin).events, x).Broken?
  {
    hide OrderInv, CourseOf, Hold, S.MarkFin, SameFor, S.AppendData;
    var at := c.streams[x].session;
    OwnHold(c, at, data, x, once);
    var d := Hold(c, at, x, data);
    if !SpeaksBadly(c, x, data, fin) {
      AddedSame(d.sessions[at], x, 0, true, x);
      PutOrder(d, at, S.MarkFin(d.sessions[at], x), x, once);
    }
  }

  /** The session of the stream is gone. */
  lemma OrphanData(c: Conn, x: nat, data: bytes, fin: bool, once: bool)
    requires OrderInv(c, x, once) && x in c.streams && c.streams[x].session !in c.sessions
    requires !IsLocalBidi(c.role, x) && !IsLocalUni(c.role, x)
    ensures !SpeaksBadly(c, x, data, fin) ==> OrderInv(StreamData(c, x, data, fin), x, once)
    ensures SpeaksBadly(c, x, data, fin) ==> CourseOf(StreamData(c, x, data, fin).events, x).Broken?
  {
    hide CourseOf;
    var r := c.streams[x];
    var e1, e2 := StreamEvent(r.session, S.Data(r.isBidi, x, data)), StreamEvent(r.session, S.End(r.isBidi, x));
    CourseSnoc(c.events, e1, x);
    CourseSnoc(c.events + [e1], e2, x);
    CourseSnoc(c.events, e2, x);
  }

  /** The session of the stream does not have it, and its octets break no limit. */
  lemma StrangerData(c: Conn, x: nat, data: bytes, fin: bool, once: bool)
    requires OrderInv(c, x, once) && x in c.streams && !IsOpen(c, x) && !IsLocalBidi(c.role, x)
        && !IsLocalUni(c.role, x)
    requires var at := c.streams[x].session;
      at in c.sessions && !c.sessions[at].phase.Pending? && !OverLimit(c, at, data)
    ensures !SpeaksBadly(c, x, data, fin) ==> OrderInv(StreamData(c, x, data, fin), x, once)
    ensures SpeaksBadly(c, x, data, fin) ==> CourseOf(StreamData(c, x, data, fin).events, x).Broken?
  {
    hide CourseOf, S.CheckReceivedData, S.OnRemoteStreamClosed, S.AddAndTrack, S.Untrack, SameFor;
    var r := c.streams[x];
    var e1, e2 := StreamEvent(r.session, S.Data(r.isBidi, x, data)), StreamEvent(r.session, S.End(r.isBidi, x));
    CourseSnoc(c.events, e1, x);
    CourseSnoc(c.events + [e1], e2, x);
    CourseSnoc(c.events, e2, x);
    AddedSame(c.sessions[r.session], x, |data|, r.isBidi, x);
    AddedSame(S.AddAndTrack(c.sessions[r.session], x, |data|), x, |data|, r.isBidi, x);
    var s := c.sessions[r.session];
    var t := if data == [] then s else S.AddAndTrack(s, x, |data|);
    SameTwice(s, t, S.Untrack(S.OnRemoteStreamClosed(t, r.isBidi), x), x);
    SameItself(s, x);
    StrangerKeeps(c, r.session, t, if data == [] then [] else [e1], x, once);
    StrangerEnds(c, r.session, S.Untrack(S.OnRemoteStreamClosed(t, r.isBidi), x),
                 (if data == [] then [] else [e1]) + [e2], x, once);
  }

  lemma SameTwice(s: S.Session, t: S.Session, r: S.Session, x: nat)
    ensures SameFor(s, t, x) && SameFor(t, r, x) ==> SameFor(s, r, x)
  {
  }

  lemma SameItself(s: S.Session, x: nat)
    ensures SameFor(s, s, x)
  {
  }

  lemma StrangerKeeps(c: Conn, at: nat, s: S.Session, more: seq<Event>, x: nat, once: bool)
    requires OrderInv(c, x, once) && !IsOpen(c, x) && at in c.sessions && SameFor(c.sessions[at], s, x)
    ensures !CourseOf(c.events + more, x).Broken? && (once ==> more == [])
        ==> OrderInv(Emit(Put(c, at, s), more), x, once)
  {
    hide CourseOf;
    assert c.events + [] == c.events;
  }

  lemma StrangerEnds(c: Conn, at: nat, s: S.Session, more: seq<Event>, x: nat, once: bool)
    requires OrderInv(c, x, once) && at in c.sessions && SameFor(c.sessions[at], s, x)
    ensures !CourseOf(c.events + more, x).Broken? && !once
        ==> OrderInv(Emit(Put(Unregister(c, {x}), at, s), more), x, once)
  {
    hide CourseOf;
  }

  /** The octets break the limit of a session that does not have the stream. */
  lemma LastData(c: Conn, x: nat, data: bytes, fin: bool, once: bool)
    requires OrderInv(c, x, once) && x in c.streams && !IsOpen(c, x) && !IsLocalBidi(c.role, x)
        && !IsLocalUni(c.role, x)
    requires var at := c.streams[x].session;
      at in c.sessions && !c.sessions[at].phase.Pending? && OverLimit(c, at, data)
    ensures !SpeaksBadly(c, x, data, fin) ==> OrderInv(StreamData(c, x, data, fin), x, once)
    ensures SpeaksBadly(c, x, data, fin) ==> CourseOf(StreamData(c, x, data, fin).events, x).Broken?
  {
    hide CourseOf, S.CheckReceivedData;
    var r := c.streams[x];
    var over := SessionClosed(r.session, c.sessions[r.session].associated, c.sessions[r.session].order);
    OthersCourse(c.events, [over], x);
    CourseSnoc(c.events + [over], StreamEvent(r.session, S.End(r.isBidi, x)), x);
  }

  lemma Unopened(c: Conn, x: nat, data: bytes, fin: bool, once: bool)
    requires OrderInv(c, x, once) && x in c.streams && !IsOpen(c, x) && !IsLocalBidi(c.role, x)
        && !IsLocalUni(c.role, x)
    requires !(c.streams[x].session in c.sessions && c.sessions[c.streams[x].session].phase.Pending?)
    ensures !SpeaksBadly(c, x, data, fin) ==> OrderInv(StreamData(c, x, data, fin), x, once)
    ensures SpeaksBadly(c, x, data, fin) ==> CourseOf(StreamData(c, x, data, fin).events, x).Broken?
  {
    hide OrderInv, CourseOf, StreamData, OverLimit, SpeaksBadly;
    if c.streams[x].session !in c.sessions {
      OrphanData(c, x, data, fin, once);
    } else if OverLimit(c, c.streams[x].session, data) {
      LastData(c, x, data, fin, once);
    } else {
      StrangerData(c, x, data, fin, once);
    }
  }

  lemma OwnData(c: Conn, x: nat, data: bytes, fin: bool, once: bool)
    requires OrderInv(c, x, once) && !IsLocalBidi(c.role, x) && !IsLocalUni(c.role, x)
    ensures !SpeaksBadly(c, x, data, fin) ==> OrderInv(StreamData(c, x, data, fin), x, once)
    ensures SpeaksBadly(c, x, data, fin) ==> CourseOf(StreamData(c, x, data, fin).events, x).Broken?
  {
    hide OrderInv, CourseOf, StreamData, S.CheckReceivedData, S.AppendData;
    if x !in c.streams {
      NoStreamNoData(c, x, data, fin);
    } else if c.streams[x].session in c.sessions && c.sessions[c.streams[x].session].phase.Pending? {
      WaitingData(c, x, data, fin, once);
    } else if IsOpen(c, x) {
      OpenData(c, x, data, fin, once);
    } else {
      Unopened(c, x, data, fin, once);
    }
  }

  lemma NoStreamNoData(c: Conn, x: nat, data: bytes, fin: bool)
    requires x !in c.streams
    ensures StreamData(c, x, data, fin) == c
  {
  }

  // ---- Resets -------------------------------------------------------------------------------------------------

  lemma ForgetOrder(c: Conn, y: nat, x: nat, once: bool)
    requires OrderInv(c, x, once)
    ensures OrderInv(Forget(c, y), x, once)
  {
    hide CourseOf, Filter;
  }

  lemma ResetSame(s: S.Session, role: Role, y: nat, isBidi: bool, n: nat, x: nat)
    ensures y != x ==> SameFor(s, ResetSession(s, role, y, isBidi, n), x)
    ensures ResetSession(s, role, y, isBidi, n).phase == s.phase
        && ResetSession(s, role, y, isBidi, n).entries == s.entries
    ensures ResetSession(s, role, y, isBidi, n).associated == s.associated - {y}
  {
  }

  lemma OthersReset(c: Conn, y: nat, finalSize: nat, x: nat, once: bool)
    requires OrderInv(c, x, once) && y != x
    ensures OrderInv(Reset(c, y, finalSize), x, once)
  {
    hide OrderInv, Terminate, Forget, S.CheckReceivedData, ResetSession, Residual, SameFor;
    TerminateOrder(c, y, x, once);
    ForgetOrder(c, y, x, once);
    if y in c.streams {
      var r, n := c.streams[y], Residual(c, y, finalSize);
      TerminateOrder(c, r.session, x, once);
      var d := c;
      if r.session in c.sessions {
        ResetSame(c.sessions[r.session], c.role, y, r.isBidi, n, x);
        d := Put(c, r.session, ResetSession(c.sessions[r.session], c.role, y, r.isBidi, n));
        PutOrder(c, r.session, ResetSession(c.sessions[r.session], c.role, y, r.isBidi, n), x, once);
      }
      UnregisterOrder(d, {y}, x, once);
      EmitOrder(Unregister(d, {y}), [StreamReset(r.session, y, finalSize)], x, once);
    }
  }

  /** The reset of the stream is reported: it is registered, does not wait, and its final size
      breaks no limit. */
  predicate ReportsReset(c: Conn, x: nat, finalSize: nat) {
    && x !in c.sessions && x !in c.closed && !Waits(c, x) && x in c.streams
    && var at := c.streams[x].session;
      at in c.sessions ==> S.CheckReceivedData(c.sessions[at], Residual(c, x, finalSize))
  }

  /** ... although the session does not have the stream. */
  predicate ResetsUnopened(c: Conn, x: nat, finalSize: nat) {
    ReportsReset(c, x, finalSize) && !IsOpen(c, x)
  }

  /** ... although it was not opened. */
  predicate ResetsBadly(c: Conn, x: nat, finalSize: nat) {
    ReportsReset(c, x, finalSize) && !CourseOf(c.events, x).Under?
  }

  lemma OwnReset(c: Conn, x: nat, finalSize: nat, once: bool)
    requires OrderInv(c, x, once) && !IsLocalUni(c.role, x)
    ensures !ResetsBadly(c, x, finalSize) ==> OrderInv(Reset(c, x, finalSize), x, once)
    ensures ResetsBadly(c, x, finalSize) ==> CourseOf(Reset(c, x, finalSize).events, x).Broken?
  {
    hide CourseOf, Terminate, Forget, S.CheckReceivedData, ResetSession, Residual;
    TerminateOrder(c, x, x, once);
    ForgetOrder(c, x, x, once);
    if x in c.streams && !Waits(c, x) {
      var r, n := c.streams[x], Residual(c, x, finalSize);
      TerminateOrder(c, r.session, x, once);
      CourseSnoc(c.events, StreamReset(r.session, x, finalSize), x);
      if r.session in c.sessions {
        ResetSame(c.sessions[r.session], c.role, x, r.isBidi, n, x);
      }
    }
  }
}
