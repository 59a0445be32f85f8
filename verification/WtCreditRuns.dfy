/** Stream credit over all runs of a connection. */
module WtCreditRuns {
  import opened Bytes
  import opened WtWindows
  import S = WtSession
  import opened WtConnection
  import opened WtAdmission
  import opened WtCredit
  import A = WtAccounting
  import C = WtConservation
  import D = WtDelivery

  // ---- Streams and their data ---------------------------------------------------------------

  lemma AssociateCredit(c: Conn, stream: nat, at: nat, isBidi: bool, id: nat, kept: nat)
    requires CreditInv(c, id, kept) && !IsLocalBidi(c.role, stream)
    requires at in c.sessions && c.sessions[at].phase.Pending? ==> c.sessions[at].windows.None?
    ensures var (d, outcome) := Associate(c, stream, at, isBidi);
      && CreditInv(d, id, kept) && d.role == c.role
      && (outcome.Buffered? ==> at in d.sessions && d.sessions[at].phase.Pending? && d.sessions[at].windows.None?)
      && (outcome.Joined? ==> at in d.sessions && d.sessions[at].phase.Established?)
  {
    hide Unopened, Counted, PendingCount;
  }

  lemma AddedStreamPhase(s: S.Session, isBidi: bool)
    ensures S.AddReceivedStream(s, isBidi).phase == s.phase
  {
  }

  lemma NewStreamCredit(c: Conn, stream: nat, at: nat, isBidi: bool, payload: bytes, id: nat, kept: nat)
    requires CreditInv(c, id, kept) && !IsLocalBidi(c.role, stream)
    requires at in c.sessions && c.sessions[at].phase.Pending? ==> c.sessions[at].windows.None?
    ensures CreditInv(NewStream(c, stream, at, isBidi, payload), id, kept)
  {
    hide CreditInv, Associate, Hold, Accept, Terminate, S.CheckReceivedStream, S.AddReceivedStream;
    var start := c.(streams := c.streams[stream := Registration(at, isBidi)]);
    StreamsCredit(c, start.streams, id, kept);
    AssociateCredit(start, stream, at, isBidi, id, kept);
    var (d, outcome) := Associate(start, stream, at, isBidi);
    var u := Unregister(d, {stream});
    StreamsCredit(d, u.streams, id, kept);
    match outcome {
      case Gone => EmitCredit(u, [Rejected(stream, true)], id, kept);
      case Overflow => EmitCredit(u, [Rejected(stream, false)], id, kept);
      case Buffered => HoldCredit(d, at, stream, payload, id, kept);
      case Joined =>
        TerminateCredit(u, at, id, kept);
        AddedStreamPhase(d.sessions[at], isBidi);
        OpenCredit(d, at, stream, isBidi, id, kept);
        AcceptCredit(Emit(Put(d, at, S.AddReceivedStream(d.sessions[at], isBidi)),
                          [StreamEvent(at, S.Open(isBidi, stream))]),
                     at, stream, isBidi, payload, id, kept);
    }
  }

  lemma OneChunkCredit(c: Conn, stream: nat, at: nat, payload: bytes, id: nat, kept: nat)
    requires CreditInv(c, id, kept) && !IsLocalBidi(c.role, stream) && stream !in c.streams
    requires at in c.sessions && c.sessions[at].phase.Pending? ==> c.sessions[at].windows.None?
    ensures CreditInv(OneChunk(c, stream, at, payload), id, kept + KeptBy(c, InOneChunk(stream, at, payload), id))
  {
    hide CreditInv, NewStream, Stays;
    NewStreamCredit(c, stream, at, false, payload, id, kept);
    C.NewStreamRole(c, stream, at, false, payload);
    StaysRegistered(c, stream, at, false, payload);
    LeaveCredit(NewStream(c, stream, at, false, payload), at, stream, id, kept);
  }

  /** Streams of session `id` that end in one chunk, neither refused nor gone nor over a limit:
      they were registered a moment before, so their end is reported, and their place is kept. */
  function KeptBy(c: Conn, input: Input, id: nat): nat {
    if input.InOneChunk? && input.session == id && Stays(c, id, false, input.payload) then 1 else 0
  }

  /** After data was accepted the session goes on or is gone for good. */
  lemma AcceptSession(c: Conn, at: nat, stream: nat, isBidi: bool, data: bytes)
    requires if at in c.sessions then !c.sessions[at].phase.Pending? else at in c.closed
    ensures var d := Accept(c, at, stream, isBidi, data);
      if at in d.sessions then !d.sessions[at].phase.Pending? else at in d.closed
  {
    hide S.CheckReceivedData;
    A.AddAndTrackPhase(c, at, stream, |data|);
  }

  lemma MarkFinCredit(s: S.Session, stream: nat)
    requires s.phase.Pending? ==> s.windows.None?
    ensures SameCredit(s, S.MarkFin(s, stream))
  {
  }

  lemma HoldSession(c: Conn, at: nat, stream: nat, data: bytes)
    requires at in c.sessions && (c.sessions[at].phase.Pending? ==> c.sessions[at].windows.None?)
    ensures var d := Hold(c, at, stream, data);
      at in d.sessions && (d.sessions[at].phase.Pending? ==> d.sessions[at].windows.None?)
  {
  }

  /** What the invariant of the books says about who may be pending and who is gone. */
  ghost predicate Orderly(c: Conn, at: nat) {
    && (at in c.sessions && c.sessions[at].phase.Pending? ==> c.sessions[at].windows.None?)
    && (at !in c.sessions && at !in c.closed ==> forall x :: !A.Owns(c, at, x))
  }

  lemma IsOrderly(c: Conn, at: nat)
    requires A.SessionInv(c, at)
    ensures Orderly(c, at)
  {
    hide A.Charge, A.Total, A.Balanced, A.AssociatedOk;
  }

  lemma StreamDataCredit(c: Conn, stream: nat, data: bytes, fin: bool, id: nat, kept: nat)
    requires CreditInv(c, id, kept) && (stream in c.streams ==> Orderly(c, c.streams[stream].session))
    ensures CreditInv(StreamData(c, stream, data, fin), id, kept)
  {
    hide CreditInv, Hold, Accept, EndStream, S.MarkFin, S.CheckReceivedData, SameCredit;
    if stream in c.streams {
      var r := c.streams[stream];
      assert A.Owns(c, r.session, stream);
      if r.session in c.sessions && c.sessions[r.session].phase.Pending? {
        HoldCredit(c, r.session, stream, data, id, kept);
        HoldSession(c, r.session, stream, data);
        var d := Hold(c, r.session, stream, data);
        MarkFinCredit(d.sessions[r.session], stream);
        PutCredit(d, r.session, S.MarkFin(d.sessions[r.session], stream), id, kept);
      } else {
        AcceptCredit(c, r.session, stream, r.isBidi, data, id, kept);
        AcceptSession(c, r.session, stream, r.isBidi, data);
        EndCredit(Accept(c, r.session, stream, r.isBidi, data), r.session, stream, r.isBidi, id, kept);
      }
    }
  }

  lemma ForgetCredit(c: Conn, stream: nat, id: nat, kept: nat)
    requires CreditInv(c, id, kept)
    ensures CreditInv(Forget(c, stream), id, kept)
  {
    hide Unopened, Counted, Filter;
  }

  lemma ResetsCredit(c: Conn, stream: nat, finalSize: nat, id: nat, kept: nat)
    requires CreditInv(c, id, kept) && Directed(c) && C.Lawful(c, InReset(stream, finalSize))
    requires stream in c.streams ==> Orderly(c, c.streams[stream].session)
    ensures CreditInv(Reset(c, stream, finalSize), id, kept)
  {
    hide CreditInv, Terminate, Forget, S.CheckReceivedData, ResetSession, Residual;
    TerminateCredit(c, stream, id, kept);
    ForgetCredit(c, stream, id, kept);
    if stream in c.streams && !Waits(c, stream) {
      var r := c.streams[stream];
      assert A.Owns(c, r.session, stream);
      TerminateCredit(c, r.session, id, kept);
      ResetCredit(c, stream, finalSize, Residual(c, stream, finalSize), id, kept);
    }
  }

  // ---- Establishing a session -----------------------------------------------------------------

  /** The counters while early streams are being delivered. */
  ghost predicate Tally(role: Role, id: nat, s: S.Session, events: seq<Event>, kept: nat) {
    PeersWait(role, s) && (s.windows.Some? ==> Counted(role, id, s.windows.value, events, kept))
  }

  lemma TallyEvent(role: Role, id: nat, s: S.Session, r: S.Session, events: seq<Event>, e: Event, kept: nat)
    requires Tally(role, id, s, events, kept) && (s.windows.Some? <==> r.windows.Some?) && PeersWait(role, r)
    requires s.windows.Some? ==> forall isBidi ::
      && WindowOf(r.windows.value, isBidi).received
         == WindowOf(s.windows.value, isBidi).received + (if Opens(e, id, isBidi) then 1 else 0)
      && WindowOf(r.windows.value, isBidi).closed
         == WindowOf(s.windows.value, isBidi).closed + (if Leaves(role, e, id, isBidi) then 1 else 0)
    ensures Tally(role, id, r, events + [e], kept)
  {
    hide Counted;
    if s.windows.Some? {
      CountedSnoc(role, id, s.windows.value, r.windows.value, events, e, kept, kept);
    }
  }

  lemma OpenedTally(s: S.Session, stream: nat, entry: S.Entry)
    ensures var r := S.OpenedSession(s, stream, entry);
      && r.entries == s.entries && (r.windows.Some? <==> s.windows.Some?)
      && (s.windows.Some? ==> forall b ::
            && WindowOf(r.windows.value, b).closed == WindowOf(s.windows.value, b).closed
            && WindowOf(r.windows.value, b).received == WindowOf(s.windows.value, b).received + if b
                == entry.isBidi then 1 else 0)
  {
  }

  lemma FilledTally(s: S.Session, stream: nat, n: nat)
    ensures var r := S.AddAndTrack(s, stream, n);
      && r.entries == s.entries && (r.windows.Some? <==> s.windows.Some?)
      && (s.windows.Some? ==> forall b :: WindowOf(r.windows.value, b) == WindowOf(s.windows.value, b))
  {
  }

  lemma DeliveredTally(role: Role, id: nat, s: S.Session, events: seq<Event>, stream: nat, entry: S.Entry, kept: nat)
    requires Tally(role, id, s, events, kept) && !IsLocalBidi(role, stream)
    ensures Tally(role, id, S.DeliveredSession(s, stream, entry), events + Wrap(id, S.EventsOf(stream, entry)), kept)
  {
    hide Tally, S.AddAndTrack, S.OnRemoteStreamClosed, S.OpenedSession, WindowOf;
    var e1, e2, e3 := S.Open(entry.isBidi, stream), S.Data(entry.isBidi, stream, entry.data),
        S.End(entry.isBidi, stream);
    var start := S.OpenedSession(s, stream, entry);
    OpenedTally(s, stream, entry);
    PeersOf(role, s, start, events, id, kept);
    TallyEvent(role, id, s, start, events, StreamEvent(id, e1), kept);
    var evs1 := events + [StreamEvent(id, e1)];
    var filled, evs2 := start, evs1;
    if entry.data != [] {
      filled, evs2 := S.AddAndTrack(start, stream, |entry.data|), evs1 + [StreamEvent(id, e2)];
      FilledTally(start, stream, |entry.data|);
      PeersOf(role, start, filled, evs1, id, kept);
      TallyEvent(role, id, start, filled, evs1, StreamEvent(id, e2), kept);
    }
    if entry.fin {
      var ended := S.Untrack(S.OnRemoteStreamClosed(filled, entry.isBidi), stream);
      ClosedCredit(filled, entry.isBidi);
      PeersOf(role, filled, ended, evs2, id, kept);
      TallyEvent(role, id, filled, ended, evs2, StreamEvent(id, e3), kept);
      assert events + Wrap(id, S.EventsOf(stream, entry)) == evs2 + [StreamEvent(id, e3)];
    } else {
      assert events + Wrap(id, S.EventsOf(stream, entry)) == evs2;
    }
  }

  lemma PeersOf(role: Role, s: S.Session, r: S.Session, events: seq<Event>, id: nat, kept: nat)
    requires Tally(role, id, s, events, kept) && r.entries == s.entries
    ensures PeersWait(role, r)
  {
  }

  lemma {:induction false} TallyAfter(role: Role, id: nat, s: S.Session, events: seq<Event>, ids: seq<nat>, kept: nat)
    requires Tally(role, id, s, events, kept)
    ensures var d := S.DeliverFrom(s, ids);
      !d.violation ==> Tally(role, id, d.session, events + Wrap(id, d.events), kept)
    decreases |ids|
  {
    hide Counted, S.DeliveredSession, S.OpenedSession, S.CheckReceivedStream, S.CheckReceivedData, Wrap, S.EventsOf;
    if ids == [] {
      D.NothingDelivered(id, events);
    } else if ids[0] !in s.entries {
      TallyAfter(role, id, s, events, ids[1..], kept);
    } else {
      var stream, entry, t := ids[0], s.entries[ids[0]], S.DropEntry(s, ids[0]);
      if S.CheckReceivedStream(t, entry.isBidi)
         && (entry.data == [] || S.CheckReceivedData(S.OpenedSession(t, stream, entry), |entry.data|)) {
        DeliveredTally(role, id, t, events, stream, entry, kept);
        var next, part := S.DeliveredSession(t, stream, entry), S.EventsOf(stream, entry);
        TallyAfter(role, id, next, events + Wrap(id, part), ids[1..], kept);
        var rest := S.DeliverFrom(next, ids[1..]);
        D.WrapConcat(id, part, rest.events);
        assert events + Wrap(id, part) + Wrap(id, rest.events) == events + (Wrap(id, part) + Wrap(id, rest.events));
      }
    }
  }

  lemma StartTally(role: Role, id: nat, s: S.Session, setup: Setup, events: seq<Event>, kept: nat)
    requires PeersWait(role, s) && s.windows.None? && Unopened(role, id, events, kept)
    ensures Tally(role, id, Start(s, setup).(order := []), events + [SessionEstablished(id)], kept)
  {
    hide Opened, Left;
    SilentEvents(role, events, [SessionEstablished(id)], id, true);
    SilentEvents(role, events, [SessionEstablished(id)], id, false);
  }

  lemma EstablishedCredit(c: Conn, at: nat, setup: Setup, id: nat, kept: nat)
    requires CreditInv(c, id, kept) && Orderly(c, at)
    ensures CreditInv(Establish(c, at, setup), id, kept)
  {
    hide Opened, Left, Counted, Unopened, S.DeliverFrom, Start, ClosedIds, Wrap, Datagrams, Terminate, SameCredit;
    if at in c.sessions && c.sessions[at].phase.Pending? {
      var s := Start(c.sessions[at], setup);
      var d := S.Deliver(s);
      var evs := c.events + [SessionEstablished(at)];
      var e := Unregister(Emit(Put(c, at, d.session), [SessionEstablished(at)] + Wrap(at, d.events)),
                          ClosedIds(d.closed));
      assert e.events == evs + Wrap(at, d.events);
      C.StartScope(c.sessions[at], setup);
      SameItself(c, id);
      if d.violation {
        EndedAtOnce(c, e, at, id, kept, [SessionEstablished(at)] + Wrap(at, d.events));
      } else {
        if id == at {
          StartTally(c.role, at, c.sessions[at], setup, c.events, kept);
          TallyAfter(c.role, at, s.(order := []), evs, s.order, kept);
        } else {
          SilentKeeps(c, e, id, kept, [SessionEstablished(at)] + Wrap(at, d.events));
        }
        assert CreditInv(e, id, kept);
        DatagramsCredit(e, at, d.session, id, kept);
      }
    }
  }

  lemma EndedAtOnce(c: Conn, e: Conn, at: nat, id: nat, kept: nat, more: seq<Event>)
    requires CreditInv(c, id, kept) && at in e.sessions && e.role == c.role && e.events == c.events + more
        && e.closed == c.closed
    requires forall i :: 0 <= i < |more| ==> id != at ==> Silent(more[i], id)
    requires forall x :: x != at ==>
        (x in e.sessions <==> x in c.sessions) && (x in e.sessions ==> e.sessions[x] == c.sessions[x])
    ensures CreditInv(Terminate(e, at), id, kept)
  {
    hide Unopened, Counted, SameCredit;
    SameItself(c, id);
    if id != at {
      SilentKeeps(c, e, id, kept, more);
      TerminateCredit(e, at, id, kept);
    }
  }

  lemma DatagramsCredit(e: Conn, at: nat, s: S.Session, id: nat, kept: nat)
    requires CreditInv(e, id, kept) && at in e.sessions && e.sessions[at] == s && s.phase.Established?
    ensures CreditInv(Emit(Put(e, at, s.(datagrams := [])), Datagrams(at, s.datagrams)), id, kept)
  {
    hide CreditInv, Datagrams;
    PutCredit(e, at, s.(datagrams := []), id, kept);
    EmitCredit(Put(e, at, s.(datagrams := [])), Datagrams(at, s.datagrams), id, kept);
  }

  // ---- Other inputs ---------------------------------------------------------------------------------

  lemma ConsumedCredit(s: S.Session, n: nat)
    requires s.phase.Pending? ==> s.windows.None?
    ensures SameCredit(s, S.OnDataConsumed(s, n))
  {
  }

  lemma OtherCredit(c: Conn, setup: Setup, input: Input, id: nat, kept: nat)
    requires CreditInv(c, id, kept)
    requires input.InConnect? || input.InRefuse? || input.InConnectEnded? || input.InDrain? || input.InClose?
             || input.InDatagram? || input.InConsumed? || input.InRegisterLocal?
    requires Orderly(c, input.session)
    ensures CreditInv(Handle(c, setup, input), id, kept)
  {
    hide Unopened, Counted, Terminate, Bury, S.OnDataConsumed, PendingCount;
    var at := input.session;
    TerminateCredit(c, at, id, kept);
    BuryCredit(c, at, id, kept);
    if input.InDatagram? {
      EmitCredit(c, [Datagram(at, input.payload)], id, kept);
    } else if at in c.sessions {
      var drained := c.sessions[at].(phase := S.Draining);
      PutCredit(c, at, drained, id, kept);
      EmitCredit(Put(c, at, drained), [SessionDraining(at)], id, kept);
      if input.InConsumed? {
        ConsumedCredit(c.sessions[at], input.n);
        PutCredit(c, at, S.OnDataConsumed(c.sessions[at], input.n), id, kept);
      }
    }
  }

  // ---- Directions -----------------------------------------------------------------------------------

  /** Registrations are only dropped, but for a new one of `stream`. */
  ghost predicate Narrower(c: Conn, d: Conn, stream: nat, isBidi: bool) {
    forall x :: x in d.streams ==>
      (x in c.streams && d.streams[x] == c.streams[x]) || (x == stream && d.streams[x].isBidi == isBidi)
  }

  lemma NarrowDirected(c: Conn, d: Conn, stream: nat)
    requires Directed(c) && Narrower(c, d, stream, IsBidi(stream))
    ensures Directed(d)
  {
  }

  lemma NewStreamNarrow(c: Conn, stream: nat, at: nat, isBidi: bool, payload: bytes)
    ensures Narrower(c, NewStream(c, stream, at, isBidi, payload), stream, isBidi)
  {
    hide PendingCount, S.BufferStream, S.AppendData, S.CheckReceivedData, S.CheckReceivedStream, S.AddReceivedStream,
        S.AddAndTrack;
  }

  lemma StreamDataNarrow(c: Conn, stream: nat, data: bytes, fin: bool)
    ensures Narrower(c, StreamData(c, stream, data, fin), 0, true)
  {
    hide S.AppendData, S.CheckReceivedData, S.AddAndTrack, S.OnRemoteStreamClosed, S.Untrack, S.MarkFin;
  }

  lemma ResetNarrow(c: Conn, stream: nat, finalSize: nat)
    ensures Narrower(c, Reset(c, stream, finalSize), 0, true)
  {
    hide Waits, ForgetIn, S.CheckReceivedData, ResetSession, Residual;
  }

  lemma EstablishNarrow(c: Conn, at: nat, setup: Setup)
    ensures Narrower(c, Establish(c, at, setup), 0, true)
  {
    hide S.Deliver, Start, ClosedIds;
  }

  lemma DirectedKept(c: Conn, setup: Setup, input: Input)
    requires Directed(c) && Typed(c.role, input)
    ensures Directed(Handle(c, setup, input))
  {
    hide NewStream, StreamData, Reset, Establish, PendingCount, S.BufferDatagram, S.OnDataConsumed, Narrower;
    match input {
      case InNewStream(stream, session, isBidi, payload) =>
        NewStreamNarrow(c, stream, session, isBidi, payload);
        NarrowDirected(c, NewStream(c, stream, session, isBidi, payload), stream);
      case InOneChunk(stream, session, payload) =>
        NewStreamNarrow(c, stream, session, false, payload);
        NarrowDirected(c, NewStream(c, stream, session, false, payload), stream);
      case InStreamData(stream, data, fin) =>
        StreamDataNarrow(c, stream, data, fin);
        NarrowDirected(c, StreamData(c, stream, data, fin), 0);
      case InReset(stream, finalSize) =>
        ResetNarrow(c, stream, finalSize);
        NarrowDirected(c, Reset(c, stream, finalSize), 0);
      case InEstablish(session) =>
        EstablishNarrow(c, session, setup);
        NarrowDirected(c, Establish(c, session, setup), 0);
      case _ =>
    }
  }

  // ---- All runs ---------------------------------------------------------------------------------------

  /** A new stream of the peer carries its direction, and whose it is, in its identifier. */
  predicate Typed(role: Role, input: Input) {
    match input
    case InNewStream(stream, _, isBidi, _) => isBidi == IsBidi(stream) && !IsLocalBidi(role, stream)
    case InOneChunk(stream, _, _) => !IsBidi(stream)
    case _ => true
  }

  lemma HandleCredit(c: Conn, setup: Setup, input: Input, id: nat, kept: nat)
    requires CreditInv(c, id, kept) && Directed(c) && Typed(c.role, input) && C.Lawful(c, input)
    requires forall x: nat :: Orderly(c, x)
    ensures CreditInv(Handle(c, setup, input), id, kept + KeptBy(c, input, id))
  {
    hide CreditInv, Orderly, Directed, NewStream, OneChunk, StreamData, Reset, Establish, C.Lawful, KeptBy;
    NothingKept(c, input, id);
    match input {
      case InNewStream(stream, session, isBidi, payload) =>
        PendingPlain(c, session);
        NewStreamCredit(c, stream, session, isBidi, payload, id, kept);
      case InOneChunk(stream, session, payload) =>
        PendingPlain(c, session);
        NeverRegistered(c, stream, session, payload);
        OneChunkCredit(c, stream, session, payload, id, kept);
      case InStreamData(stream, data, fin) => StreamDataCredit(c, stream, data, fin, id, kept);
      case InReset(stream, finalSize) => ResetsCredit(c, stream, finalSize, id, kept);
      case InEstablish(session) => EstablishedCredit(c, session, setup, id, kept);
      case _ => OtherCredit(c, setup, input, id, kept);
    }
  }

  lemma PendingPlain(c: Conn, at: nat)
    requires Orderly(c, at)
    ensures at in c.sessions && c.sessions[at].phase.Pending? ==> c.sessions[at].windows.None?
  {
  }

  lemma NeverRegistered(c: Conn, stream: nat, at: nat, payload: bytes)
    requires C.Lawful(c, InOneChunk(stream, at, payload))
    ensures stream !in c.streams
  {
  }

  lemma NothingKept(c: Conn, input: Input, id: nat)
    ensures !input.InOneChunk? ==> KeptBy(c, input, id) == 0
  {
  }

  ghost predicate TypedRun(role: Role, inputs: seq<Input>) {
    forall n {:trigger inputs[n]} :: 0 <= n < |inputs| ==> Typed(role, inputs[n])
  }

  /** The streams of session `id` that ended in one chunk, over a run from `c`. */
  function Kept(c: Conn, setup: Setup, inputs: seq<Input>, id: nat): nat {
    if inputs == [] then 0
    else
      var before := inputs[..|inputs| - 1];
      Kept(c, setup, before, id) + KeptBy(HandleAll(c, setup, before), inputs[|inputs| - 1], id)
  }

  lemma {:induction false} CreditOverRuns(role: Role, goaway: Option<nat>, setup: Setup, inputs: seq<Input>, id: nat)
    requires C.LawfulRun(Fresh(role, goaway), setup, inputs) && TypedRun(role, inputs)
    ensures var c := HandleAll(Fresh(role, goaway), setup, inputs);
      CreditInv(c, id, Kept(Fresh(role, goaway), setup, inputs, id)) && Directed(c)
    decreases |inputs|
  {
    hide Handle, CreditInv, Directed, Typed, KeptBy, C.LawfulRun, C.Lawful;
    if inputs == [] {
      FreshCredit(role, goaway, id);
    } else {
      var n := |inputs| - 1;
      var c := HandleAll(Fresh(role, goaway), setup, inputs[..n]);
      C.LawfulBefore(Fresh(role, goaway), setup, inputs);
      assert forall i :: 0 <= i < n ==> inputs[..n][i] == inputs[i];
      assert Typed(role, inputs[n]);
      CreditOverRuns(role, goaway, setup, inputs[..n], id);
      C.SameRole(role, goaway, setup, inputs[..n]);
      forall x: nat
        ensures Orderly(c, x)
      {
        C.BooksOverRuns(role, goaway, setup, inputs[..n], x);
        IsOrderly(c, x);
      }
      HandleCredit(c, setup, inputs[n], id, Kept(Fresh(role, goaway), setup, inputs[..n], id));
      DirectedKept(c, setup, inputs[n]);
    }
  }

  lemma FreshCredit(role: Role, goaway: Option<nat>, id: nat)
    ensures CreditInv(Fresh(role, goaway), id, 0) && Directed(Fresh(role, goaway))
  {
  }

  /** Credit: at any moment of any run, a session under flow control has counted as received
      exactly the streams of the peer that were opened, in each direction; as closed it has
      counted exactly those that ended or were reset, but for unidirectional streams that ended
      in one chunk. */
  lemma Credit(role: Role, goaway: Option<nat>, setup: Setup, inputs: seq<Input>, id: nat, isBidi: bool)
    requires C.LawfulRun(Fresh(role, goaway), setup, inputs) && TypedRun(role, inputs)
    ensures var c := HandleAll(Fresh(role, goaway), setup, inputs);
      id in c.sessions && c.sessions[id].windows.Some? ==>
        var w := WindowOf(c.sessions[id].windows.value, isBidi);
        && w.received == Opened(c.events, id, isBidi)
        && w.closed + (if isBidi then 0 else Kept(Fresh(role, goaway), setup, inputs, id))
            == Left(role, c.events, id, isBidi)
  {
    hide HandleAll, C.LawfulRun, TypedRun, Kept, Opened, Left;
    CreditOverRuns(role, goaway, setup, inputs, id);
    C.SameRole(role, goaway, setup, inputs);
  }

  /** So every place that was left is given back if and only if no stream ended in one chunk. */
  lemma PlacesComeBack(role: Role, goaway: Option<nat>, setup: Setup, inputs: seq<Input>, id: nat)
    requires C.LawfulRun(Fresh(role, goaway), setup, inputs) && TypedRun(role, inputs)
    ensures var c := HandleAll(Fresh(role, goaway), setup, inputs);
      id in c.sessions && c.sessions[id].windows.Some? ==>
        (c.sessions[id].windows.value.uni.closed == Left(role, c.events, id, false)
         <==> Kept(Fresh(role, goaway), setup, inputs, id) == 0)
  {
    hide HandleAll, C.LawfulRun, TypedRun, Kept, Opened, Left;
    Credit(role, goaway, setup, inputs, id, false);
  }
}
