/** Stream credit: what a session counts as opened and closed by the peer is what the events
    say, except for streams that end in one chunk. */
module WtCredit {
  import opened Bytes
  import opened WtWindows
  import S = WtSession
  import opened WtConnection
  import A = WtAccounting
  import C = WtConservation
  import D = WtDelivery

  // ---- What the events say --------------------------------------------------------------

  predicate Opens(e: Event, id: nat, isBidi: bool) {
    e.StreamEvent? && e.session == id && e.event.Open? && e.event.isBidi == isBidi
  }

  /** A stream of the peer has ended or was reset. */
  predicate Leaves(role: Role, e: Event, id: nat, isBidi: bool) {
    match e
    case StreamEvent(session, End(b, stream)) => session == id && b == isBidi && !IsLocalBidi(role, stream)
    case StreamReset(session, stream, _) => session == id && IsBidi(stream) == isBidi && !IsLocalBidi(role, stream)
    case _ => false
  }

  /** The second bit of a stream identifier is its direction. */
  predicate IsBidi(stream: nat) {
    stream % 4 < 2
  }

  function Opened(events: seq<Event>, id: nat, isBidi: bool): nat {
    if events == [] then 0
    else Opened(events[..|events| - 1], id, isBidi) + if Opens(events[|events| - 1], id, isBidi) then 1 else 0
  }

  function Left(role: Role, events: seq<Event>, id: nat, isBidi: bool): nat {
    if events == [] then 0
    else
      Left(role, events[..|events| - 1], id, isBidi)
      + if Leaves(role, events[|events| - 1], id, isBidi) then 1 else 0
  }

  lemma CountSnoc(role: Role, events: seq<Event>, e: Event, id: nat, isBidi: bool)
    ensures Opened(events + [e], id, isBidi) == Opened(events, id, isBidi) + if Opens(e, id, isBidi) then 1 else 0
    ensures Left(role, events + [e], id, isBidi) == Left(role, events, id, isBidi)
        + if Leaves(role, e, id, isBidi) then 1 else 0
  {
    assert (events + [e])[..|events|] == events;
  }

  /** Says nothing about the credit of session `id`. */
  predicate Silent(e: Event, id: nat) {
    match e
    case StreamEvent(session, event) => session != id || event.Data?
    case StreamReset(session, _, _) => session != id
    case _ => true
  }

  lemma {:induction false} SilentEvents(role: Role, events: seq<Event>, more: seq<Event>, id: nat, isBidi: bool)
    requires forall i :: 0 <= i < |more| ==> Silent(more[i], id)
    ensures Opened(events + more, id, isBidi) == Opened(events, id, isBidi)
    ensures Left(role, events + more, id, isBidi) == Left(role, events, id, isBidi)
    decreases |more|
  {
    hide Opened, Left;
    if more == [] {
      assert events + more == events;
    } else {
      var n := |more| - 1;
      SilentEvents(role, events, more[..n], id, isBidi);
      assert events + more == events + more[..n] + [more[n]];
      CountSnoc(role, events + more[..n], more[n], id, isBidi);
    }
  }

  // ---- The invariant -----------------------------------------------------------------------

  function WindowOf(w: S.Windows, isBidi: bool): StreamWindow {
    if isBidi then w.bidi else w.uni
  }

  /** The counters against the events; `kept` streams of the session ended in one chunk. */
  ghost predicate Counted(role: Role, id: nat, w: S.Windows, events: seq<Event>, kept: nat) {
    forall isBidi ::
      && WindowOf(w, isBidi).received == Opened(events, id, isBidi)
      && WindowOf(w, isBidi).closed + (if isBidi then 0 else kept) == Left(role, events, id, isBidi)
  }

  /** Nothing was opened yet; what ended, ended in one chunk. */
  ghost predicate Unopened(role: Role, id: nat, events: seq<Event>, kept: nat) {
    forall isBidi ::
      Opened(events, id, isBidi) == 0 && Left(role, events, id, isBidi) == if isBidi then 0 else kept
  }

  /** Early streams are the peer's. */
  predicate PeersWait(role: Role, s: S.Session) {
    forall x :: x in s.entries ==> !IsLocalBidi(role, x)
  }

  ghost predicate CreditInv(c: Conn, id: nat, kept: nat) {
    && (id in c.sessions ==>
          var s := c.sessions[id];
          && PeersWait(c.role, s)
          && (s.phase.Pending? ==> s.windows.None? && Unopened(c.role, id, c.events, kept))
          && (s.windows.Some? ==> Counted(c.role, id, s.windows.value, c.events, kept)))
    && (id !in c.sessions && id !in c.closed ==> Unopened(c.role, id, c.events, kept))
  }

  /** The registered direction of a stream is that of its identifier. */
  ghost predicate Directed(c: Conn) {
    forall x :: x in c.streams ==> c.streams[x].isBidi == IsBidi(x)
  }

  // ---- Steps that do not touch the credit ------------------------------------------------------

  /** The session `r` has the counters of `s`, or none. */
  predicate SameCredit(s: S.Session, r: S.Session) {
    && (r.phase.Pending? ==> s.phase.Pending? && r.windows.None?)
    && (r.windows.Some? ==> s.windows.Some? && forall isBidi ::
          WindowOf(r.windows.value, isBidi).received == WindowOf(s.windows.value, isBidi).received
          && WindowOf(r.windows.value, isBidi).closed == WindowOf(s.windows.value, isBidi).closed)
    && (forall x :: x in r.entries ==> x in s.entries)
  }

  predicate NewCredit(r: S.Session) {
    r.phase.Pending? && r.windows.None?
  }

  lemma SilentKeeps(c: Conn, d: Conn, id: nat, kept: nat, more: seq<Event>)
    requires CreditInv(c, id, kept) && d.role == c.role && d.events == c.events + more
    requires forall i :: 0 <= i < |more| ==> Silent(more[i], id)
    requires id in d.sessions && id in c.sessions ==> SameCredit(c.sessions[id], d.sessions[id])
    requires id in d.sessions && id !in c.sessions ==>
      id !in c.closed && NewCredit(d.sessions[id]) && PeersWait(d.role, d.sessions[id])
    requires id !in d.sessions && id in c.sessions ==> id in d.closed
    requires id in c.closed ==> id in d.closed
    ensures CreditInv(d, id, kept)
  {
    hide Opened, Left;
    SilentEvents(c.role, c.events, more, id, true);
    SilentEvents(c.role, c.events, more, id, false);
  }

  lemma PutCredit(c: Conn, at: nat, s: S.Session, id: nat, kept: nat)
    requires CreditInv(c, id, kept) && at in c.sessions && SameCredit(c.sessions[at], s)
    ensures CreditInv(Put(c, at, s), id, kept)
  {
    hide Unopened, Counted, WindowOf;
    SameItself(c, id);
    assert c.events + [] == c.events;
    SilentKeeps(c, Put(c, at, s), id, kept, []);
  }

  lemma SameItself(c: Conn, id: nat)
    ensures id in c.sessions && (c.sessions[id].phase.Pending? ==> c.sessions[id].windows.None?) ==>
      SameCredit(c.sessions[id], c.sessions[id])
  {
  }

  lemma EmitCredit(c: Conn, more: seq<Event>, id: nat, kept: nat)
    requires CreditInv(c, id, kept) && forall i :: 0 <= i < |more| ==> Silent(more[i], id)
    ensures CreditInv(Emit(c, more), id, kept)
  {
    hide Unopened, Counted, SameCredit;
    SameItself(c, id);
    SilentKeeps(c, Emit(c, more), id, kept, more);
  }

  lemma StreamsCredit(c: Conn, streams: map<nat, Registration>, id: nat, kept: nat)
    requires CreditInv(c, id, kept)
    ensures CreditInv(c.(streams := streams), id, kept)
  {
    hide Unopened, Counted;
  }

  lemma TerminateCredit(c: Conn, at: nat, id: nat, kept: nat)
    requires CreditInv(c, id, kept)
    ensures CreditInv(Terminate(c, at), id, kept)
  {
    hide Unopened, Counted, SameCredit;
    SameItself(c, id);
    if at in c.sessions {
      SilentKeeps(c, Terminate(c, at), id, kept, [SessionClosed(at, c.sessions[at].associated, c.sessions[at].order)]);
    }
  }

  lemma BuryCredit(c: Conn, at: nat, id: nat, kept: nat)
    requires CreditInv(c, id, kept)
    ensures CreditInv(Bury(c, at), id, kept)
  {
    hide Unopened, Counted;
  }

  lemma AddedDataCredit(s: S.Session, stream: nat, n: nat)
    requires s.phase.Pending? ==> s.windows.None?
    ensures SameCredit(s, S.AddAndTrack(s, stream, n))
  {
  }

  lemma AcceptCredit(c: Conn, at: nat, stream: nat, isBidi: bool, data: bytes, id: nat, kept: nat)
    requires CreditInv(c, id, kept) && (at in c.sessions ==> !c.sessions[at].phase.Pending?)
    ensures CreditInv(Accept(c, at, stream, isBidi, data), id, kept)
  {
    hide CreditInv, Terminate, S.CheckReceivedData, S.AddAndTrack, SameCredit;
    var e := StreamEvent(at, S.Data(isBidi, stream, data));
    EmitCredit(c, [e], id, kept);
    TerminateCredit(c, at, id, kept);
    if at in c.sessions {
      AddedDataCredit(c.sessions[at], stream, |data|);
      PutCredit(c, at, S.AddAndTrack(c.sessions[at], stream, |data|), id, kept);
      EmitCredit(Put(c, at, S.AddAndTrack(c.sessions[at], stream, |data|)), [e], id, kept);
    }
  }

  lemma HoldCredit(c: Conn, at: nat, stream: nat, data: bytes, id: nat, kept: nat)
    requires CreditInv(c, id, kept) && at in c.sessions && c.sessions[at].phase.Pending? && c.sessions[at].windows.None?
    ensures CreditInv(Hold(c, at, stream, data), id, kept)
  {
    hide CreditInv;
    var s := S.AppendData(c.sessions[at], stream, data);
    if data != [] && s.Some? {
      PutCredit(c, at, s.value, id, kept);
    } else if data != [] {
      var d := Put(c, at, S.DropEntry(c.sessions[at], stream));
      PutCredit(c, at, S.DropEntry(c.sessions[at], stream), id, kept);
      StreamsCredit(d, Unregister(d, {stream}).streams, id, kept);
      EmitCredit(Unregister(d, {stream}), [Rejected(stream, false)], id, kept);
    }
  }

  // ---- Steps that do ------------------------------------------------------------------------------

  /** One event of session `id`, and the session after it. */
  lemma CountedSnoc(role: Role, id: nat, w: S.Windows, v: S.Windows, events: seq<Event>, e: Event, kept: nat,
                    kept': nat)
    requires Counted(role, id, w, events, kept)
    requires forall isBidi ::
      && WindowOf(v, isBidi).received == WindowOf(w, isBidi).received + (if Opens(e, id, isBidi) then 1 else 0)
      && WindowOf(v, isBidi).closed + (if isBidi then 0 else kept')
         == WindowOf(w, isBidi).closed + (if isBidi then 0 else kept) + (if Leaves(role, e, id, isBidi) then 1 else 0)
    ensures Counted(role, id, v, events + [e], kept')
  {
    hide Opened, Left;
    CountSnoc(role, events, e, id, true);
    CountSnoc(role, events, e, id, false);
  }

  lemma OpenCredit(c: Conn, at: nat, stream: nat, isBidi: bool, id: nat, kept: nat)
    requires CreditInv(c, id, kept) && at in c.sessions && !c.sessions[at].phase.Pending?
    ensures CreditInv(Emit(Put(c, at, S.AddReceivedStream(c.sessions[at], isBidi)),
                           [StreamEvent(at, S.Open(isBidi, stream))]), id, kept)
  {
    hide Opened, Left, Counted, Unopened, SameCredit;
    var s, e := c.sessions[at], StreamEvent(at, S.Open(isBidi, stream));
    var r := S.AddReceivedStream(s, isBidi);
    if id != at {
      SameItself(c, id);
      SilentKeeps(c, Emit(Put(c, at, r), [e]), id, kept, [e]);
    } else if s.windows.Some? {
      CountedSnoc(c.role, id, s.windows.value, r.windows.value, c.events, e, kept, kept);
    }
  }

  lemma ClosedCredit(s: S.Session, isBidi: bool)
    ensures var r := S.OnRemoteStreamClosed(s, isBidi);
      && r.entries == s.entries && r.phase == s.phase && (r.windows.Some? <==> s.windows.Some?)
      && (s.windows.Some? ==> forall b ::
            && WindowOf(r.windows.value, b).received == WindowOf(s.windows.value, b).received
            && WindowOf(r.windows.value, b).closed
               == WindowOf(s.windows.value, b).closed + if b == isBidi then 1 else 0)
  {
  }

  lemma EndCredit(c: Conn, at: nat, stream: nat, isBidi: bool, id: nat, kept: nat)
    requires CreditInv(c, id, kept)
    requires if at in c.sessions then !c.sessions[at].phase.Pending? else at in c.closed
    ensures CreditInv(Emit(EndStream(c, at, stream, isBidi), [StreamEvent(at, S.End(isBidi, stream))]), id, kept)
  {
    hide Opened, Left, Counted, Unopened, SameCredit, S.OnRemoteStreamClosed;
    var e := StreamEvent(at, S.End(isBidi, stream));
    var d := Emit(EndStream(c, at, stream, isBidi), [e]);
    SameItself(c, id);
    if id != at {
      SilentKeeps(c, d, id, kept, [e]);
    } else if at in c.sessions {
      ClosedCredit(c.sessions[at], isBidi);
      if c.sessions[at].windows.Some? {
        CountedSnoc(c.role, id, c.sessions[at].windows.value, d.sessions[at].windows.value, c.events, e, kept, kept);
      }
    }
  }

  lemma ResetSessionCredit(s: S.Session, role: Role, stream: nat, isBidi: bool, n: nat)
    ensures var r := ResetSession(s, role, stream, isBidi, n);
      && r.entries == s.entries && r.phase == s.phase && (r.windows.Some? <==> s.windows.Some?)
      && (s.windows.Some? ==> forall b ::
            && WindowOf(r.windows.value, b).received == WindowOf(s.windows.value, b).received
            && WindowOf(r.windows.value, b).closed
               == WindowOf(s.windows.value, b).closed + if b == isBidi && !IsLocalBidi(role, stream) then 1 else 0)
  {
    hide S.OnRemoteStreamClosed;
    var consumed := S.OnDataConsumed(S.AddReceivedData(s, n), n);
    ClosedCredit(consumed, isBidi);
  }

  lemma ResetCredit(c: Conn, stream: nat, finalSize: nat, n: nat, id: nat, kept: nat)
    requires CreditInv(c, id, kept) && stream in c.streams && c.streams[stream].isBidi == IsBidi(stream)
    requires var at := c.streams[stream].session;
      if at in c.sessions then !c.sessions[at].phase.Pending? else at in c.closed
    ensures var r := c.streams[stream];
      var d := if r.session in c.sessions
          then Put(c, r.session, ResetSession(c.sessions[r.session], c.role, stream, r.isBidi, n)) else c;
      CreditInv(Emit(Unregister(d, {stream}), [StreamReset(r.session, stream, finalSize)]), id, kept)
  {
    hide Opened, Left, Counted, Unopened, SameCredit, ResetSession;
    var r := c.streams[stream];
    var at, e := r.session, StreamReset(r.session, stream, finalSize);
    var d := if at in c.sessions then Put(c, at, ResetSession(c.sessions[at], c.role, stream, r.isBidi, n)) else c;
    SameItself(c, id);
    if id != at {
      SilentKeeps(c, Emit(Unregister(d, {stream}), [e]), id, kept, [e]);
    } else if at in c.sessions {
      ResetSessionCredit(c.sessions[at], c.role, stream, r.isBidi, n);
      if c.sessions[at].windows.Some? {
        CountedSnoc(c.role, id, c.sessions[at].windows.value, d.sessions[at].windows.value, c.events, e, kept, kept);
      }
    }
  }

  /** The end of a stream in one chunk: it is reported, and its place is kept. */
  lemma LeaveCredit(c: Conn, at: nat, stream: nat, id: nat, kept: nat)
    requires CreditInv(c, id, kept) && !IsLocalBidi(c.role, stream)
    ensures CreditInv(Emit(Unregister(c, {stream}), [StreamEvent(at, S.End(false, stream))]), id,
                      if id == at then kept + 1 else kept)
  {
    hide Opened, Left, SameCredit;
    var e := StreamEvent(at, S.End(false, stream));
    SameItself(c, id);
    if id != at {
      SilentKeeps(c, Emit(Unregister(c, {stream}), [e]), id, kept, [e]);
    } else {
      CountSnoc(c.role, c.events, e, id, true);
      CountSnoc(c.role, c.events, e, id, false);
    }
  }
}
