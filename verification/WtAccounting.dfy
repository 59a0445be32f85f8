/** Flow-control accounting of WebTransport sessions: what a session has charged the peer is
    what the events say it received. */
module WtAccounting {
  import opened Bytes
  import opened WtWindows
  import S = WtSession
  import opened WtConnection
  import V = VarInts

  // ---- The ledger that the events spell ---------------------------------------------

  function Max(a: nat, b: nat): nat {
    if a >= b then a else b
  }

  /** The octets of a peer's stream that are not payload; a local stream's header was sent by
      this side. Both kinds of header start with a two-octet value. */
  function HeaderOf(role: Role, id: nat, stream: nat): nat {
    if IsLocalBidi(role, stream) then 0 else 2 + if id <= V.MAX then V.Length(id) else 8
  }

  function Subject(e: Event): Option<nat> {
    match e
    case StreamEvent(_, Open(_, stream)) => Some(stream)
    case StreamEvent(_, Data(_, stream, _)) => Some(stream)
    case StreamEvent(_, End(_, stream)) => Some(stream)
    case StreamReset(_, stream, _) => Some(stream)
    case Rejected(stream, _) => Some(stream)
    case _ => None
  }

  /** What one more event makes of a stream's charge: data adds its length, a reset raises it
      to the final size without the header, if that is more. */
  function Charged(role: Role, id: nat, stream: nat, charge: nat, e: Event): nat {
    match e
    case StreamEvent(s, Data(_, x, data)) => if s == id && x == stream then charge + |data| else charge
    case StreamReset(s, x, finalSize) =>
      if s == id && x == stream then Max(charge, Minus(finalSize, HeaderOf(role, id, stream))) else charge
    case _ => charge
  }

  function Charge(role: Role, id: nat, stream: nat, events: seq<Event>): nat {
    if events == [] then 0
    else Charged(role, id, stream, Charge(role, id, stream, events[..|events| - 1]), events[|events| - 1])
  }

  /** The sum over all streams: each event counts for what it adds to its stream. */
  function Total(role: Role, id: nat, events: seq<Event>): nat {
    if events == [] then 0
    else
      var before, e := events[..|events| - 1], events[|events| - 1];
      var stream := if Subject(e).Some? then Subject(e).value else 0;
      var charge := Charge(role, id, stream, before);
      Total(role, id, before) + (Charged(role, id, stream, charge, e) - charge)
  }

  // ---- The invariant ------------------------------------------------------------------

  /** The end or the reset of a stream. */
  predicate Concludes(e: Event, stream: nat) {
    Subject(e) == Some(stream) && (e.StreamReset? || (e.StreamEvent? && e.event.End?))
  }

  ghost predicate Concluded(events: seq<Event>, stream: nat) {
    exists i :: 0 <= i < |events| && Concludes(events[i], stream)
  }

  /** QUIC gives no octets of a stream after its end or its reset. A stream that was refused, or
      whose session has ended, is not registered any more: its next octets are read as those of a
      new stream. */
  ghost predicate MayBeNew(c: Conn, stream: nat) {
    stream !in c.streams && !Concluded(c.events, stream)
  }

  ghost predicate WindowsKept(w: S.Windows) {
    DataKept(w.data) && StreamsKept(w.uni) && StreamsKept(w.bidi)
  }

  predicate Owns(c: Conn, id: nat, stream: nat) {
    stream in c.streams && c.streams[stream].session == id
  }

  /** A stream is registered under the session, or was and has come to its end. */
  ghost predicate Had(c: Conn, id: nat, stream: nat) {
    Owns(c, id, stream) || (stream !in c.streams && Concluded(c.events, stream))
  }

  ghost predicate AssociatedOk(c: Conn, id: nat, s: S.Session) {
    forall x :: x in s.associated ==> Had(c, id, x)
  }

  /** Every stream's account and the session's total are what the events say, and nothing was
      accepted beyond what was announced. */
  ghost predicate Balanced(c: Conn, id: nat, s: S.Session) {
    && (forall x :: Owns(c, id, x) ==> S.Accounted(s, x) == Charge(c.role, id, x, c.events))
    && (forall x :: x in s.tracked ==> Had(c, id, x))
    && (forall x: nat :: Charge(c.role, id, x, c.events) > 0 ==> Had(c, id, x))
    && (s.windows.Some? ==>
        WindowsKept(s.windows.value) && s.windows.value.data.received == Total(c.role, id, c.events))
  }

  /** Nothing was charged to a session yet. */
  ghost predicate Untouched(c: Conn, id: nat) {
    Total(c.role, id, c.events) == 0 && forall x: nat :: Charge(c.role, id, x, c.events) == 0
  }

  /** A pending session: its early streams are known, nothing is accounted yet. */
  ghost predicate Waiting(c: Conn, id: nat, s: S.Session) {
    && Untouched(c, id)
    && s.tracked == map[] && s.windows.None? && s.associated == {}
    && (forall x :: x in s.entries ==> Had(c, id, x) && x in s.order)
  }

  ghost predicate LiveInv(c: Conn, id: nat, s: S.Session) {
    (if s.phase.Pending? then Waiting(c, id, s) else Balanced(c, id, s)) && AssociatedOk(c, id, s)
  }

  ghost predicate SessionInv(c: Conn, id: nat) {
    && (id in c.sessions ==> id !in c.closed && LiveInv(c, id, c.sessions[id]))
    && (id !in c.sessions && id !in c.closed ==> Untouched(c, id) && forall x :: !Owns(c, id, x))
  }

  // ---- Events that change no charge -----------------------------------------------------

  predicate Neutral(e: Event, id: nat) {
    match e
    case StreamEvent(s, Data(_, _, _)) => s != id
    case StreamReset(s, _, _) => s != id
    case _ => true
  }

  lemma ChargeSnoc(role: Role, id: nat, x: nat, events: seq<Event>, e: Event)
    ensures Charge(role, id, x, events + [e]) == Charged(role, id, x, Charge(role, id, x, events), e)
    ensures var stream := if Subject(e).Some? then Subject(e).value else 0;
      var charge := Charge(role, id, stream, events);
      Total(role, id, events + [e]) == Total(role, id, events) + (Charged(role, id, stream, charge, e) - charge)
  {
    assert (events + [e])[..|events|] == events;
  }

  lemma {:induction false} NeutralEvents(role: Role, id: nat, x: nat, events: seq<Event>, more: seq<Event>)
    requires forall i :: 0 <= i < |more| ==> Neutral(more[i], id)
    ensures Charge(role, id, x, events + more) == Charge(role, id, x, events)
    ensures Total(role, id, events + more) == Total(role, id, events)
    decreases |more|
  {
    if more == [] {
      assert events + more == events;
    } else {
      var n := |more| - 1;
      NeutralEvents(role, id, x, events, more[..n]);
      assert events + more == events + more[..n] + [more[n]];
      ChargeSnoc(role, id, x, events + more[..n], more[n]);
    }
  }

  lemma ConcludedMore(events: seq<Event>, more: seq<Event>, x: nat)
    ensures Concluded(events, x) ==> Concluded(events + more, x)
    ensures more != [] && Concludes(more[|more| - 1], x) ==> Concluded(events + more, x)
  {
    if Concluded(events, x) {
      var i :| 0 <= i < |events| && Concludes(events[i], x);
      assert (events + more)[i] == events[i];
    }
    if more != [] {
      assert (events + more)[|events| + |more| - 1] == more[|more| - 1];
    }
  }

  // ---- Steps beside a session -------------------------------------------------------------

  /** `d` came from `c` by something that does not concern session `id`. */
  ghost predicate Beside(c: Conn, d: Conn, id: nat, more: seq<Event>) {
    && d.role == c.role && d.events == c.events + more && (forall i :: 0 <= i < |more| ==> Neutral(more[i], id))
    && (id in d.sessions <==> id in c.sessions) && (id in d.sessions ==> d.sessions[id] == c.sessions[id])
    && (id in d.closed <==> id in c.closed)
    && (forall x :: Owns(c, id, x) <==> Owns(d, id, x))
    && (forall x :: x in d.streams && x !in c.streams ==> !Concluded(c.events, x))
  }

  lemma BesideKeeps(c: Conn, d: Conn, id: nat, more: seq<Event>)
    requires SessionInv(c, id) && Beside(c, d, id, more)
    ensures SessionInv(d, id)
  {
    hide Charge, Total, Concluded, WindowsKept, S.Accounted;
    forall x: nat
      ensures Charge(d.role, id, x, d.events) == Charge(c.role, id, x, c.events)
      ensures Concluded(c.events, x) ==> Concluded(d.events, x)
    {
      NeutralEvents(c.role, id, x, c.events, more);
      ConcludedMore(c.events, more, x);
    }
    NeutralEvents(c.role, id, 0, c.events, more);
  }

  // ---- Building blocks ----------------------------------------------------------------------

  /** Ending one session concerns no other. */
  lemma TerminateKeeps(c: Conn, at: nat, id: nat)
    requires SessionInv(c, id) || id == at
    requires at in c.sessions ==> forall x :: x in c.sessions[at].associated && x in c.streams ==> Owns(c, at, x)
    requires at !in c.sessions ==> SessionInv(c, id)
    ensures SessionInv(Terminate(c, at), id)
  {
    hide Charge, Total, Balanced, Waiting, AssociatedOk, Concluded;
    if at in c.sessions && id != at {
      var d := Terminate(c, at);
      BesideKeeps(c, d, id, [SessionClosed(at, c.sessions[at].associated, c.sessions[at].order)]);
    }
  }

  lemma OwnAssociated(c: Conn, at: nat)
    requires SessionInv(c, at)
    ensures at in c.sessions ==> forall x :: x in c.sessions[at].associated && x in c.streams ==> Owns(c, at, x)
  {
    hide Balanced, Waiting, Concluded, Charge, Total;
  }

  lemma BuryKeeps(c: Conn, at: nat, id: nat)
    requires SessionInv(c, id)
    ensures SessionInv(Bury(c, at), id)
  {
    hide Charge, Total, Balanced, Waiting, AssociatedOk, Concluded;
    if id != at {
      assert c.events + [] == c.events;
      BesideKeeps(c, Bury(c, at), id, []);
    }
  }

  /** A changed session concerns no other. */
  lemma PutBeside(c: Conn, at: nat, s: S.Session, id: nat)
    requires SessionInv(c, id) && id != at
    ensures SessionInv(Put(c, at, s), id)
  {
    hide Charge, Total, Balanced, Waiting, AssociatedOk, Concluded;
    assert c.events + [] == c.events;
    BesideKeeps(c, Put(c, at, s), id, []);
  }

  lemma EmitNeutral(c: Conn, e: Event, id: nat)
    requires SessionInv(c, id) && Neutral(e, id)
    ensures SessionInv(Emit(c, [e]), id)
  {
    hide Charge, Total, Balanced, Waiting, AssociatedOk, Concluded;
    BesideKeeps(c, Emit(c, [e]), id, [e]);
  }

  lemma AddAndTrackEffect(s: S.Session, stream: nat, n: nat)
    ensures var r := S.AddAndTrack(s, stream, n);
      && r.phase == s.phase && r.associated == s.associated
      && (forall x :: S.Accounted(r, x) == S.Accounted(s, x) + if x == stream then n else 0)
      && (forall x :: x in r.tracked <==> x in s.tracked || x == stream)
      && (r.windows.Some? <==> s.windows.Some?)
      && (r.windows.Some? ==> r.windows.value == s.windows.value.(data := ReceiveData(s.windows.value.data, n)))
  {
  }

  /** Accepted data is charged once: to its stream, to the session, and in the events. */
  lemma AcceptHere(c: Conn, at: nat, stream: nat, isBidi: bool, data: bytes)
    requires SessionInv(c, at) && at in c.sessions && !c.sessions[at].phase.Pending? && Owns(c, at, stream)
    requires S.CheckReceivedData(c.sessions[at], |data|)
    ensures SessionInv(Emit(Put(c, at, S.AddAndTrack(c.sessions[at], stream, |data|)),
                            [StreamEvent(at, S.Data(isBidi, stream, data))]), at)
  {
    hide Charge, Total, S.AddAndTrack, S.Accounted, Concluded;
    var s, e := c.sessions[at], StreamEvent(at, S.Data(isBidi, stream, data));
    var r := S.AddAndTrack(s, stream, |data|);
    AddAndTrackEffect(s, stream, |data|);
    forall x: nat
      ensures Charge(c.role, at, x, c.events + [e])
        == Charge(c.role, at, x, c.events) + if x == stream then |data| else 0
      ensures Concluded(c.events, x) ==> Concluded(c.events + [e], x)
    {
      ChargeSnoc(c.role, at, x, c.events, e);
      ConcludedMore(c.events, [e], x);
    }
    ChargeSnoc(c.role, at, stream, c.events, e);
    if s.windows.Some? {
      DataWindowKept(s.windows.value.data, |data|);
    }
  }

  lemma AcceptKeeps(c: Conn, at: nat, stream: nat, isBidi: bool, data: bytes, id: nat)
    requires SessionInv(c, id) && SessionInv(c, at) && Owns(c, at, stream)
    requires at in c.sessions ==> !c.sessions[at].phase.Pending?
    ensures SessionInv(Accept(c, at, stream, isBidi, data), id)
  {
    hide LiveInv, S.CheckReceivedData, Charge, Total, S.AddAndTrack, Terminate, Untouched;
    var e := StreamEvent(at, S.Data(isBidi, stream, data));
    if at in c.sessions {
      OwnAssociated(c, at);
      TerminateKeeps(c, at, id);
      if S.CheckReceivedData(c.sessions[at], |data|) {
        AcceptHere(c, at, stream, isBidi, data);
        if id != at {
          PutBeside(c, at, S.AddAndTrack(c.sessions[at], stream, |data|), id);
          EmitNeutral(Put(c, at, S.AddAndTrack(c.sessions[at], stream, |data|)), e, id);
        }
      }
    } else if id != at {
      EmitNeutral(c, e, id);
    }
  }

  lemma HoldKeeps(c: Conn, at: nat, stream: nat, data: bytes, id: nat)
    requires SessionInv(c, id) && SessionInv(c, at) && Owns(c, at, stream)
    requires at in c.sessions && c.sessions[at].phase.Pending?
    ensures SessionInv(Hold(c, at, stream, data), id)
    ensures at in Hold(c, at, stream, data).sessions && Hold(c, at, stream, data).sessions[at].phase.Pending?
    ensures stream in Hold(c, at, stream, data).streams ==> Owns(Hold(c, at, stream, data), at, stream)
  {
    hide Charge, Total, Concluded;
    var s := S.AppendData(c.sessions[at], stream, data);
    if s.None? {
      var d := Emit(Unregister(Put(c, at, S.DropEntry(c.sessions[at], stream)), {stream}), [Rejected(stream, false)]);
      if id != at {
        BesideKeeps(c, d, id, [Rejected(stream, false)]);
      } else {
        WaitingHere(c, at, d, [Rejected(stream, false)]);
      }
    } else if id != at {
      PutBeside(c, at, s.value, id);
    }
  }

  /** A pending session stays one as long as no event charges it. */
  lemma WaitingHere(c: Conn, at: nat, d: Conn, more: seq<Event>)
    requires SessionInv(c, at) && (at in c.sessions ==> c.sessions[at].phase.Pending?) && at !in c.closed
    requires d.role == c.role && d.events == c.events + more && (forall i :: 0 <= i < |more| ==> Neutral(more[i], at))
    requires at in d.sessions && at !in d.closed
    requires var s := d.sessions[at];
      s.phase.Pending? && s.tracked == map[] && s.windows.None? && s.associated == {}
      && forall x :: x in s.entries ==> x in s.order && (Owns(d, at, x) || (x !in d.streams && Concluded(c.events, x)))
    ensures SessionInv(d, at)
  {
    hide Charge, Total, Concluded;
    forall x: nat
      ensures Charge(d.role, at, x, d.events) == 0
      ensures Concluded(c.events, x) ==> Concluded(d.events, x)
    {
      NeutralEvents(c.role, at, x, c.events, more);
      ConcludedMore(c.events, more, x);
    }
    NeutralEvents(c.role, at, 0, c.events, more);
  }

  // ---- New streams --------------------------------------------------------------------------

  /** A stream that joins a session: nothing was charged to it yet. */
  lemma JoinKeeps(c: Conn, at: nat, stream: nat, isBidi: bool, id: nat)
    requires SessionInv(c, id) && SessionInv(c, at) && MayBeNew(c, stream)
    requires at in c.sessions && !c.sessions[at].phase.Pending?
    ensures var s := c.sessions[at];
      SessionInv(Put(c, at, s.(associated := s.associated + {stream}))
                 .(streams := c.streams[stream := Registration(at, isBidi)]), id)
  {
    hide Charge, Total, S.Accounted;
    var s := c.sessions[at];
    var d := Put(c, at, s.(associated := s.associated + {stream}))
        .(streams := c.streams[stream := Registration(at, isBidi)]);
    if id != at {
      assert c.events + [] == c.events;
      BesideKeeps(c, d, id, []);
    } else {
      assert Charge(c.role, at, stream, c.events) == 0;
      assert S.Accounted(s, stream) == 0 by { NotTracked(s, stream); }
      SameAccounts(s, s.associated + {stream});
    }
  }

  lemma NotTracked(s: S.Session, stream: nat)
    requires stream !in s.tracked
    ensures S.Accounted(s, stream) == 0
  {
  }

  lemma SameAccounts(s: S.Session, associated: set<nat>)
    ensures forall x: nat :: S.Accounted(s.(associated := associated), x) == S.Accounted(s, x)
  {
  }

  lemma BufferKeeps(c: Conn, at: nat, s: S.Session, stream: nat, isBidi: bool, id: nat)
    requires SessionInv(c, id) && SessionInv(c, at) && MayBeNew(c, stream) && at !in c.closed
    requires at in c.sessions ==> c.sessions[at].phase.Pending? && s == c.sessions[at]
    requires at !in c.sessions ==> s == S.NEW
    requires S.BufferStream(s, stream, isBidi).Some?
    ensures SessionInv(Put(c, at, S.BufferStream(s, stream, isBidi).value)
                       .(streams := c.streams[stream := Registration(at, isBidi)]), id)
  {
    hide Charge, Total;
    var d := Put(c, at, S.BufferStream(s, stream, isBidi).value)
        .(streams := c.streams[stream := Registration(at, isBidi)]);
    assert c.events + [] == c.events;
    if id != at {
      BesideKeeps(c, d, id, []);
    } else {
      WaitingHere(c, at, d, []);
    }
  }

  lemma RefusedKeeps(c: Conn, stream: nat, at: nat, isBidi: bool, gone: bool, id: nat)
    requires SessionInv(c, id) && MayBeNew(c, stream)
    ensures var b := c.(streams := c.streams[stream := Registration(at, isBidi)]);
      SessionInv(Emit(Unregister(b, {stream}), [Rejected(stream, gone)]), id)
  {
    hide LiveInv, Untouched;
    var b := c.(streams := c.streams[stream := Registration(at, isBidi)]);
    assert Unregister(b, {stream}).streams == c.streams;
    EmitNeutral(c, Rejected(stream, gone), id);
    assert Emit(Unregister(b, {stream}), [Rejected(stream, gone)]) == Emit(c, [Rejected(stream, gone)]);
  }

  /** The limit on streams ends the session; the stream that broke it was never registered. */
  lemma StreamLimitKeeps(c: Conn, d: Conn, at: nat, stream: nat, isBidi: bool, id: nat)
    requires SessionInv(c, id) && SessionInv(c, at) && MayBeNew(c, stream) && at in c.sessions
    requires d == Put(c, at, c.sessions[at].(associated := c.sessions[at].associated + {stream}))
                    .(streams := c.streams[stream := Registration(at, isBidi)])
    ensures SessionInv(Terminate(Unregister(d, {stream}), at), id)
  {
    hide LiveInv, Charge, Total, Terminate;
    OwnAssociated(c, at);
    var u := Unregister(d, {stream});
    assert u.streams == c.streams;
    if id != at {
      assert c.events + [] == c.events;
      BesideKeeps(c, u, id, []);
    }
    TerminateKeeps(u, at, id);
  }

  lemma AddStreamHere(c: Conn, at: nat, isBidi: bool)
    requires SessionInv(c, at) && at in c.sessions && !c.sessions[at].phase.Pending?
    requires S.CheckReceivedStream(c.sessions[at], isBidi)
    ensures SessionInv(Put(c, at, S.AddReceivedStream(c.sessions[at], isBidi)), at)
    ensures S.AddReceivedStream(c.sessions[at], isBidi).phase == c.sessions[at].phase
  {
    hide Charge, Total, Concluded;
    var s := c.sessions[at];
    if s.windows.Some? {
      StreamWindowKept(if isBidi then s.windows.value.bidi else s.windows.value.uni);
    }
  }

  lemma JoinedKeeps(c: Conn, stream: nat, at: nat, isBidi: bool, payload: bytes, id: nat)
    requires SessionInv(c, id) && SessionInv(c, at) && MayBeNew(c, stream)
    requires at in c.sessions && c.sessions[at].phase.Established?
    ensures SessionInv(NewStream(c, stream, at, isBidi, payload), id)
  {
    hide LiveInv, S.CheckReceivedStream, S.AddReceivedStream, Charge, Total, Accept, Terminate, Untouched;
    var s := c.sessions[at];
    var d := Put(c, at, s.(associated := s.associated + {stream}))
        .(streams := c.streams[stream := Registration(at, isBidi)]);
    JoinKeeps(c, at, stream, isBidi, id);
    JoinKeeps(c, at, stream, isBidi, at);
    StreamLimitKeeps(c, d, at, stream, isBidi, id);
    if S.CheckReceivedStream(d.sessions[at], isBidi) {
      AddStreamHere(d, at, isBidi);
      var e := Put(d, at, S.AddReceivedStream(d.sessions[at], isBidi));
      if id != at {
        PutBeside(d, at, S.AddReceivedStream(d.sessions[at], isBidi), id);
      }
      EmitNeutral(e, StreamEvent(at, S.Open(isBidi, stream)), id);
      EmitNeutral(e, StreamEvent(at, S.Open(isBidi, stream)), at);
      AcceptKeeps(Emit(e, [StreamEvent(at, S.Open(isBidi, stream))]), at, stream, isBidi, payload, id);
    }
  }

  lemma NewStreamKeeps(c: Conn, stream: nat, at: nat, isBidi: bool, payload: bytes, id: nat)
    requires SessionInv(c, id) && SessionInv(c, at) && MayBeNew(c, stream)
    requires at in c.sessions ==> !c.sessions[at].phase.Closed?
    ensures SessionInv(NewStream(c, stream, at, isBidi, payload), id)
  {
    hide LiveInv, S.BufferStream, Charge, Total, Hold, Untouched, PendingCount;
    RefusedKeeps(c, stream, at, isBidi, true, id);
    RefusedKeeps(c, stream, at, isBidi, false, id);
    if at in c.sessions && c.sessions[at].phase.Established? {
      JoinedKeeps(c, stream, at, isBidi, payload, id);
    } else {
      var b := c.(streams := c.streams[stream := Registration(at, isBidi)]);
      var (d, outcome) := Associate(b, stream, at, isBidi);
      if outcome.Buffered? {
        var s := if at in c.sessions then c.sessions[at] else S.NEW;
        NewHasRoom(stream, isBidi);
        BufferKeeps(c, at, s, stream, isBidi, id);
        BufferKeeps(c, at, s, stream, isBidi, at);
        BufferKeepsPhase(s, stream, isBidi);
        HoldKeeps(d, at, stream, payload, id);
      }
    }
  }

  lemma NewHasRoom(stream: nat, isBidi: bool)
    ensures S.BufferStream(S.NEW, stream, isBidi).Some?
  {
  }

  lemma BufferKeepsPhase(s: S.Session, stream: nat, isBidi: bool)
    ensures S.BufferStream(s, stream, isBidi).Some? ==> S.BufferStream(s, stream, isBidi).value.phase == s.phase
  {
  }

  /** The stream's end is reported at once: it is registered no longer, its account stays. */
  lemma OneChunkKeeps(c: Conn, stream: nat, at: nat, payload: bytes, id: nat)
    requires SessionInv(c, id) && SessionInv(c, at) && MayBeNew(c, stream)
    requires at in c.sessions ==> !c.sessions[at].phase.Closed?
    ensures SessionInv(OneChunk(c, stream, at, payload), id)
  {
    hide LiveInv, Untouched, NewStream;
    NewStreamKeeps(c, stream, at, false, payload, id);
    NewStreamOwner(c, stream, at, false, payload);
    var d := NewStream(c, stream, at, false, payload);
    if stream in d.streams {
      LeaveKeeps(d, at, stream, StreamEvent(at, S.End(false, stream)), id);
    }
  }

  lemma NewStreamOwner(c: Conn, stream: nat, at: nat, isBidi: bool, payload: bytes)
    requires stream !in c.streams
    ensures stream in NewStream(c, stream, at, isBidi, payload).streams ==>
      NewStream(c, stream, at, isBidi, payload).streams[stream] == Registration(at, isBidi)
  {
    hide S.BufferStream, S.AppendData, S.CheckReceivedData, S.CheckReceivedStream, S.AddReceivedStream, S.AddAndTrack,
        PendingCount;
  }

  lemma LeaveKeeps(c: Conn, at: nat, stream: nat, e: Event, id: nat)
    requires SessionInv(c, id) && Owns(c, at, stream) && Concludes(e, stream) && (forall x :: Neutral(e, x))
    ensures SessionInv(Emit(Unregister(c, {stream}), [e]), id)
  {
    hide Charge, Total, Concluded, WindowsKept, S.Accounted;
    var d := Emit(Unregister(c, {stream}), [e]);
    assert forall x :: Owns(d, id, x) <==> Owns(c, id, x) && x != stream;
    forall x: nat
      ensures Charge(d.role, id, x, d.events) == Charge(c.role, id, x, c.events)
      ensures Concluded(c.events, x) || x == stream ==> Concluded(d.events, x)
    {
      NeutralEvents(c.role, id, x, c.events, [e]);
      ConcludedMore(c.events, [e], x);
    }
    NeutralEvents(c.role, id, 0, c.events, [e]);
  }

  // ---- Registered streams -------------------------------------------------------------------

  lemma MarkFinKeeps(c: Conn, at: nat, stream: nat, id: nat)
    requires SessionInv(c, id) && SessionInv(c, at) && at in c.sessions && c.sessions[at].phase.Pending?
    ensures SessionInv(Put(c, at, S.MarkFin(c.sessions[at], stream)), id)
  {
    hide Charge, Total;
    var d := Put(c, at, S.MarkFin(c.sessions[at], stream));
    assert c.events + [] == c.events;
    if id != at {
      PutBeside(c, at, S.MarkFin(c.sessions[at], stream), id);
    } else {
      WaitingHere(c, at, d, []);
    }
  }

  lemma UntrackEffect(s: S.Session, stream: nat)
    ensures forall x: nat :: x != stream ==> S.Accounted(S.Untrack(s, stream), x) == S.Accounted(s, x)
  {
  }

  lemma ClosedEffect(s: S.Session, isBidi: bool)
    ensures var r := S.OnRemoteStreamClosed(s, isBidi);
      && r.phase == s.phase && r.associated == s.associated && r.tracked == s.tracked
      && (r.windows.Some? <==> s.windows.Some?)
      && (r.windows.Some? && WindowsKept(s.windows.value) ==>
          WindowsKept(r.windows.value) && r.windows.value.data == s.windows.value.data)
  {
    if s.windows.Some? {
      var w := if isBidi then s.windows.value.bidi else s.windows.value.uni;
      if StreamsKept(w) {
        StreamWindowKept(w);
      }
    }
  }

  /** The end of a peer's stream: it is forgotten, and the report of its end remains. */
  lemma EndKeeps(c: Conn, at: nat, stream: nat, isBidi: bool, id: nat)
    requires SessionInv(c, id) && SessionInv(c, at) && Owns(c, at, stream)
    requires at in c.sessions ==> !c.sessions[at].phase.Pending?
    ensures SessionInv(Emit(EndStream(c, at, stream, isBidi), [StreamEvent(at, S.End(isBidi, stream))]), id)
  {
    hide Charge, Total, S.Accounted, S.Untrack, S.OnRemoteStreamClosed;
    var e := StreamEvent(at, S.End(isBidi, stream));
    var d := Emit(EndStream(c, at, stream, isBidi), [e]);
    if IsLocalBidi(c.role, stream) {
      EmitNeutral(c, e, id);
    } else if id != at {
      BesideKeeps(c, d, id, [e]);
    } else if at in c.sessions {
      var s := c.sessions[at];
      ForgottenHere(c, at, stream, S.Untrack(S.OnRemoteStreamClosed(s, isBidi), stream), d, e);
    }
  }

  /** A stream leaves its session: its account is dropped, every other account stays. */
  lemma ForgottenHere(c: Conn, at: nat, stream: nat, r: S.Session, d: Conn, e: Event)
    requires SessionInv(c, at) && at in c.sessions && !c.sessions[at].phase.Pending? && Owns(c, at, stream)
    requires exists isBidi :: r == S.Untrack(S.OnRemoteStreamClosed(c.sessions[at], isBidi), stream)
    requires Concludes(e, stream) && Neutral(e, at)
    requires d == Emit(Put(Unregister(c, {stream}), at, r), [e])
    ensures SessionInv(d, at)
  {
    hide Charge, Total, S.Accounted, S.OnRemoteStreamClosed;
    var isBidi :| r == S.Untrack(S.OnRemoteStreamClosed(c.sessions[at], isBidi), stream);
    ClosedEffect(c.sessions[at], isBidi);
    UntrackEffect(S.OnRemoteStreamClosed(c.sessions[at], isBidi), stream);
    SameTracked(c.sessions[at], S.OnRemoteStreamClosed(c.sessions[at], isBidi));
    forall x: nat
      ensures Charge(d.role, at, x, d.events) == Charge(c.role, at, x, c.events)
      ensures Concluded(c.events, x) || x == stream ==> Concluded(d.events, x)
    {
      NeutralEvents(c.role, at, x, c.events, [e]);
      ConcludedMore(c.events, [e], x);
    }
    NeutralEvents(c.role, at, 0, c.events, [e]);
  }

  lemma SameTracked(s: S.Session, r: S.Session)
    requires r.tracked == s.tracked
    ensures forall x: nat :: S.Accounted(r, x) == S.Accounted(s, x)
  {
  }

  /** After data was accepted the stream is either still its session's or gone with it. */
  lemma AcceptOwner(c: Conn, at: nat, stream: nat, isBidi: bool, data: bytes)
    requires Owns(c, at, stream) && (at in c.sessions ==> !c.sessions[at].phase.Pending?)
    ensures var d := Accept(c, at, stream, isBidi, data);
      && (stream in d.streams ==> Owns(d, at, stream)) && (at in d.sessions ==> !d.sessions[at].phase.Pending?)
  {
    AddAndTrackPhase(c, at, stream, |data|);
  }

  lemma AddAndTrackPhase(c: Conn, at: nat, stream: nat, n: nat)
    ensures at in c.sessions ==> S.AddAndTrack(c.sessions[at], stream, n).phase == c.sessions[at].phase
  {
  }

  lemma StreamDataKeeps(c: Conn, stream: nat, data: bytes, fin: bool, id: nat)
    requires SessionInv(c, id) && (stream in c.streams ==> SessionInv(c, c.streams[stream].session))
    ensures SessionInv(StreamData(c, stream, data, fin), id)
  {
    hide LiveInv, Untouched, Charge, Total, Accept, Hold, EndStream, S.MarkFin, S.CheckReceivedData;
    if stream in c.streams {
      var r := c.streams[stream];
      if r.session in c.sessions && c.sessions[r.session].phase.Pending? {
        HoldKeeps(c, r.session, stream, data, id);
        HoldKeeps(c, r.session, stream, data, r.session);
        MarkFinKeeps(Hold(c, r.session, stream, data), r.session, stream, id);
      } else {
        AcceptKeeps(c, r.session, stream, r.isBidi, data, id);
        AcceptKeeps(c, r.session, stream, r.isBidi, data, r.session);
        AcceptOwner(c, r.session, stream, r.isBidi, data);
        var d := Accept(c, r.session, stream, r.isBidi, data);
        if stream in d.streams {
          EndKeeps(d, r.session, stream, r.isBidi, id);
        }
      }
    }
  }

  // ---- Resets -------------------------------------------------------------------------------

  lemma HeaderAgrees(role: Role, r: Registration, stream: nat)
    ensures HeaderOf(role, r.session, stream) == if IsLocalBidi(role, stream) then 0 else HeaderLength(r)
  {
  }

  lemma ConsumedEffect(s: S.Session, n: nat)
    requires S.CheckReceivedData(s, n)
    ensures var r := S.OnDataConsumed(S.AddReceivedData(s, n), n);
      && r.phase == s.phase && r.associated == s.associated && r.tracked == s.tracked
      && (r.windows.Some? <==> s.windows.Some?)
      && (r.windows.Some? && WindowsKept(s.windows.value) ==>
            WindowsKept(r.windows.value) && r.windows.value.data.received == s.windows.value.data.received + n)
  {
    if s.windows.Some? && WindowsKept(s.windows.value) {
      DataWindowKept(s.windows.value.data, n);
      DataWindowKept(ReceiveData(s.windows.value.data, n), n);
    }
  }

  lemma ResetSessionEffect(s: S.Session, role: Role, stream: nat, isBidi: bool, n: nat)
    requires S.CheckReceivedData(s, n)
    ensures var r := ResetSession(s, role, stream, isBidi, n);
      && r.phase == s.phase && r.associated == s.associated - {stream}
      && (forall x: nat :: x != stream ==> S.Accounted(r, x) == S.Accounted(s, x))
      && (forall x :: x in r.tracked <==> x in s.tracked && x != stream)
      && (r.windows.Some? <==> s.windows.Some?)
      && (r.windows.Some? && WindowsKept(s.windows.value) ==>
            WindowsKept(r.windows.value) && r.windows.value.data.received == s.windows.value.data.received + n)
  {
    hide S.OnDataConsumed, S.AddReceivedData, S.OnRemoteStreamClosed, S.CheckReceivedData;
    ConsumedEffect(s, n);
    var consumed := S.OnDataConsumed(S.AddReceivedData(s, n), n);
    ClosedEffect(consumed, isBidi);
    SameTracked(s, consumed);
  }

  /** A reset charges the stream, in total, for its final size without the header, or for what
      was received if that is more; the window grows by the difference. */
  lemma ResetHere(c: Conn, at: nat, stream: nat, finalSize: nat)
    requires SessionInv(c, at) && at in c.sessions && !c.sessions[at].phase.Pending? && Owns(c, at, stream)
    requires S.CheckReceivedData(c.sessions[at], Residual(c, stream, finalSize))
    ensures var r, n := c.streams[stream], Residual(c, stream, finalSize);
      SessionInv(Emit(Unregister(Put(c, at, ResetSession(c.sessions[at], c.role, stream, r.isBidi, n)), {stream}),
                      [StreamReset(at, stream, finalSize)]), at)
  {
    hide Charge, Total, S.Accounted, S.CheckReceivedData, ResetSession, HeaderLength, HeaderOf;
    var s, r, n, e := c.sessions[at], c.streams[stream], Residual(c, stream, finalSize),
        StreamReset(at, stream, finalSize);
    var d := Emit(Unregister(Put(c, at, ResetSession(s, c.role, stream, r.isBidi, n)), {stream}), [e]);
    ResetSessionEffect(s, c.role, stream, r.isBidi, n);
    HeaderAgrees(c.role, r, stream);
    ChargeSnoc(c.role, at, stream, c.events, e);
    assert Charge(c.role, at, stream, d.events) == Charge(c.role, at, stream, c.events) + n;
    forall x: nat
      ensures x != stream ==> Charge(d.role, at, x, d.events) == Charge(c.role, at, x, c.events)
      ensures Concluded(c.events, x) || x == stream ==> Concluded(d.events, x)
    {
      ChargeSnoc(c.role, at, x, c.events, e);
      ConcludedMore(c.events, [e], x);
    }
  }

  lemma ForgetKeeps(c: Conn, stream: nat, id: nat)
    requires SessionInv(c, id)
    ensures SessionInv(Forget(c, stream), id)
  {
    hide Charge, Total, Filter, Concluded, ForgetIn, WindowsKept, S.Accounted;
    var d := Forget(c, stream);
    assert forall x :: Owns(d, id, x) <==> Owns(c, id, x);
    if id in c.sessions {
      ForgetInEffect(c.sessions[id], stream);
      SameTracked(c.sessions[id], d.sessions[id]);
    }
  }

  lemma ForgetInEffect(s: S.Session, stream: nat)
    ensures var r := ForgetIn(s, stream);
      && r == s.(entries := r.entries, order := r.order)
      && (forall x :: x in r.entries ==>
          x in s.entries && r.entries[x] == s.entries[x] && (x in s.order ==> x in r.order))
  {
  }

  /** A registered stream of a pending session still has its entry. */
  predicate NotResetYet(c: Conn, stream: nat) {
    stream in c.streams ==>
      var at := c.streams[stream].session;
      at in c.sessions && c.sessions[at].phase.Pending? ==> stream in c.sessions[at].entries
  }

  /** A stream of a pending session always has an entry, or had one that was dropped; a reset
      then finds nothing accounted. */
  lemma ResetKeeps(c: Conn, stream: nat, finalSize: nat, id: nat)
    requires SessionInv(c, id) && SessionInv(c, stream)
    requires stream in c.streams ==> SessionInv(c, c.streams[stream].session)
    requires NotResetYet(c, stream)
    ensures SessionInv(Reset(c, stream, finalSize), id)
  {
    hide LiveInv, Untouched, Charge, Total, S.CheckReceivedData, ResetSession, Residual, Terminate, Forget;
    OwnAssociated(c, stream);
    TerminateKeeps(c, stream, id);
    ForgetKeeps(c, stream, id);
    if stream !in c.sessions && !Waits(c, stream) && stream in c.streams {
      var r := c.streams[stream];
      OwnAssociated(c, r.session);
      TerminateKeeps(c, r.session, id);
      var n, e := Residual(c, stream, finalSize), StreamReset(r.session, stream, finalSize);
      if r.session in c.sessions {
        if S.CheckReceivedData(c.sessions[r.session], n) {
          ResetHere(c, r.session, stream, finalSize);
          var d := Emit(Unregister(Put(c, r.session, ResetSession(c.sessions[r.session], c.role, stream, r.isBidi, n)),
                                   {stream}), [e]);
          ResetBeside(c, d, r.session, stream, e, id);
        }
      } else {
        ResetBeside(c, Emit(Unregister(c, {stream}), [e]), r.session, stream, e, id);
      }
    }
  }

  lemma ResetBeside(c: Conn, d: Conn, at: nat, stream: nat, e: Event, id: nat)
    requires SessionInv(c, id) && Owns(c, at, stream)
        && (id == at ==> SessionInv(d, id) || (at !in c.sessions && at in d.closed && at !in d.sessions))
    requires d.role == c.role && d.events == c.events + [e] && e.StreamReset? && e.session == at
    requires d.streams == Unregister(c, {stream}).streams && d.closed == c.closed
    requires forall x :: x != at ==>
        (x in d.sessions <==> x in c.sessions) && (x in d.sessions ==> d.sessions[x] == c.sessions[x])
    ensures SessionInv(d, id)
  {
    hide Charge, Total, Balanced, Waiting, AssociatedOk, Concluded;
    if id != at {
      BesideKeeps(c, d, id, [e]);
    }
  }
}
