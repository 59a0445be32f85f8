/** The order of a stream's events: opened before anything else is reported, nothing after its
    end. */
module WtOrder {
  import opened Bytes
  import S = WtSession
  import opened WtConnection
  import opened WtAccounting

  // ---- What the events say ------------------------------------------------------------------

  datatype Course = Unseen | Under | Over | Broken

  /** A stream is over when it ends, is reset or is rejected. */
  predicate Closes(e: Event, x: nat) {
    Subject(e) == Some(x) && !(e.StreamEvent? && !e.event.End?)
  }

  predicate IsOpening(e: Event, x: nat) {
    e.StreamEvent? && e.event.Open? && e.event.stream == x
  }

  /** Octets, an end or a reset: what only an opened stream may have. */
  predicate NeedsOpening(e: Event, x: nat) {
    Subject(e) == Some(x) && !IsOpening(e, x) && !e.Rejected?
  }

  function Next(o: Course, e: Event, x: nat): Course {
    if Subject(e) != Some(x) then o
    else if IsOpening(e, x) then (if o.Unseen? then Under else Broken)
    else if NeedsOpening(e, x) && !o.Under? then Broken
    else if o.Over? || o.Broken? then Broken
    else if Closes(e, x) then Over
    else o
  }

  function CourseOf(events: seq<Event>, x: nat): Course {
    if events == [] then Unseen else Next(CourseOf(events[..|events| - 1], x), events[|events| - 1], x)
  }

  predicate OpensBefore(events: seq<Event>, x: nat, n: nat) {
    exists i :: 0 <= i < n && i < |events| && IsOpening(events[i], x)
  }

  predicate ClosesBefore(events: seq<Event>, x: nat, n: nat) {
    exists i :: 0 <= i < n && i < |events| && Closes(events[i], x)
  }

  /** Octets, ends and resets come after an opening, there is one opening, and nothing follows the
      end, the reset or the rejection of a stream. */
  ghost predicate InOrder(events: seq<Event>, x: nat) {
    forall n :: 0 <= n < |events| ==>
      && (NeedsOpening(events[n], x) ==> OpensBefore(events, x, n))
      && (IsOpening(events[n], x) ==> !OpensBefore(events, x, n))
      && (Subject(events[n]) == Some(x) ==> !ClosesBefore(events, x, n))
  }

  lemma BeforeSnoc(events: seq<Event>, e: Event, x: nat, n: nat)
    requires n <= |events|
    ensures OpensBefore(events + [e], x, n) <==> OpensBefore(events, x, n)
    ensures ClosesBefore(events + [e], x, n) <==> ClosesBefore(events, x, n)
    ensures OpensBefore(events + [e], x, |events| + 1) <==> OpensBefore(events, x, |events|) || IsOpening(e, x)
    ensures ClosesBefore(events + [e], x, |events| + 1) <==> ClosesBefore(events, x, |events|) || Closes(e, x)
  {
    var all := events + [e];
    assert all[|events|] == e;
    assert forall i :: 0 <= i < |events| ==> all[i] == events[i];
  }

  lemma InOrderSnoc(events: seq<Event>, e: Event, x: nat)
    ensures InOrder(events + [e], x) <==>
      && InOrder(events, x)
      && (NeedsOpening(e, x) ==> OpensBefore(events, x, |events|))
      && (IsOpening(e, x) ==> !OpensBefore(events, x, |events|))
      && (Subject(e) == Some(x) ==> !ClosesBefore(events, x, |events|))
  {
    hide OpensBefore, ClosesBefore;
    var all := events + [e];
    assert all[|events|] == e;
    forall n: nat | n <= |events|
      ensures OpensBefore(all, x, n) <==> OpensBefore(events, x, n)
      ensures ClosesBefore(all, x, n) <==> ClosesBefore(events, x, n)
    {
      BeforeSnoc(events, e, x, n);
    }
    assert forall n :: 0 <= n < |events| ==> all[n] == events[n];
  }

  /** The course of a stream is broken exactly when its events are out of order. */
  lemma {:induction false} CourseMeans(events: seq<Event>, x: nat)
    ensures CourseOf(events, x) != Broken <==> InOrder(events, x)
    ensures InOrder(events, x) ==>
      && (CourseOf(events, x).Over? <==> ClosesBefore(events, x, |events|))
      && (CourseOf(events, x).Under? ==> OpensBefore(events, x, |events|))
      && (CourseOf(events, x).Unseen? ==> !OpensBefore(events, x, |events|))
    decreases |events|
  {
    hide InOrder, OpensBefore, ClosesBefore;
    if events == [] {
      NothingYet(x);
    } else {
      var before, e := events[..|events| - 1], events[|events| - 1];
      assert events == before + [e];
      CourseMeans(before, x);
      InOrderSnoc(before, e, x);
      BeforeSnoc(before, e, x, |before|);
    }
  }

  lemma NothingYet(x: nat)
    ensures InOrder([], x) && !OpensBefore([], x, 0) && !ClosesBefore([], x, 0)
  {
  }

  lemma CourseSnoc(events: seq<Event>, e: Event, x: nat)
    ensures CourseOf(events + [e], x) == Next(CourseOf(events, x), e, x)
  {
    assert (events + [e])[..|events|] == events;
  }

  lemma {:induction false} OthersCourse(events: seq<Event>, more: seq<Event>, x: nat)
    requires forall i :: 0 <= i < |more| ==> Subject(more[i]) != Some(x)
    ensures CourseOf(events + more, x) == CourseOf(events, x)
    decreases |more|
  {
    hide CourseOf;
    if more == [] {
      assert events + more == events;
    } else {
      var n := |more| - 1;
      OthersCourse(events, more[..n], x);
      assert events + more == events + more[..n] + [more[n]];
      CourseSnoc(events + more[..n], more[n], x);
    }
  }

  lemma {:induction false} StaysBroken(events: seq<Event>, more: seq<Event>, x: nat)
    requires CourseOf(events, x).Broken?
    ensures CourseOf(events + more, x).Broken?
    decreases |more|
  {
    hide CourseOf;
    if more == [] {
      assert events + more == events;
    } else {
      var n := |more| - 1;
      StaysBroken(events, more[..n], x);
      assert events + more == events + more[..n] + [more[n]];
      CourseSnoc(events + more[..n], more[n], x);
    }
  }

  ghost predicate Reported(events: seq<Event>, x: nat) {
    exists i :: 0 <= i < |events| && Subject(events[i]) == Some(x)
  }

  lemma {:induction false} UnreportedUnseen(events: seq<Event>, x: nat)
    ensures !Reported(events, x) ==> CourseOf(events, x).Unseen?
    decreases |events|
  {
    if events != [] && !Reported(events, x) {
      var before, e := events[..|events| - 1], events[|events| - 1];
      assert events == before + [e];
      forall i | 0 <= i < |before|
        ensures Subject(before[i]) != Some(x)
      {
        assert before[i] == events[i];
      }
      UnreportedUnseen(before, x);
    }
  }

  // ---- The invariant ----------------------------------------------------------------------------

  /** The session has the stream as one that was opened. */
  predicate IsOpen(c: Conn, x: nat) {
    x in c.streams && c.streams[x].session in c.sessions && x in c.sessions[c.streams[x].session].associated
  }

  /** A session pending: nobody was opened, and whoever waits is registered with no other. */
  predicate WaitsWell(c: Conn, id: nat, s: S.Session, x: nat) {
    s.phase.Pending? ==>
      x !in s.associated && (x in s.entries && x in c.streams ==> c.streams[x].session == id)
  }

  /** Nothing is out of order so far, and a stream that its session has was opened. If the stream
      is read as new but `once`, moreover, nothing was reported of one that its session does not
      have, and whoever waits is registered. */
  ghost predicate OrderInv(c: Conn, x: nat, once: bool) {
    && !CourseOf(c.events, x).Broken?
    && (IsOpen(c, x) ==> CourseOf(c.events, x).Under?)
    && (once && x in c.streams && !IsOpen(c, x) ==> CourseOf(c.events, x).Unseen?)
    && (forall id :: id in c.sessions ==>
          && (x in c.sessions[id].associated && x in c.streams ==> c.streams[x].session == id)
          && WaitsWell(c, id, c.sessions[id], x)
          && (once && c.sessions[id].phase.Pending? && x in c.sessions[id].entries ==> x in c.streams))
  }

  // ---- Building blocks ------------------------------------------------------------------------------

  lemma EmitOrder(c: Conn, more: seq<Event>, x: nat, once: bool)
    requires OrderInv(c, x, once) && forall i :: 0 <= i < |more| ==> Subject(more[i]) != Some(x)
    ensures OrderInv(Emit(c, more), x, once)
  {
    hide CourseOf;
    OthersCourse(c.events, more, x);
  }

  /** The session is the same for the stream. */
  predicate SameFor(s: S.Session, r: S.Session, x: nat) {
    && (x in r.associated <==> x in s.associated)
    && (r.phase.Pending? ==> s.phase.Pending?)
    && (x in r.entries ==> x in s.entries)
  }

  lemma PutOrder(c: Conn, at: nat, s: S.Session, x: nat, once: bool)
    requires OrderInv(c, x, once) && at in c.sessions && SameFor(c.sessions[at], s, x)
    ensures OrderInv(Put(c, at, s), x, once)
  {
    hide CourseOf;
  }

  lemma NewSessionOrder(c: Conn, at: nat, s: S.Session, x: nat, once: bool)
    requires OrderInv(c, x, once) && at !in c.sessions && x !in s.associated && x !in s.entries
    ensures OrderInv(Put(c, at, s), x, once)
  {
    hide CourseOf;
  }

  lemma OthersRegistration(c: Conn, y: nat, r: Registration, x: nat, once: bool)
    requires OrderInv(c, x, once) && x != y
    ensures OrderInv(c.(streams := c.streams[y := r]), x, once)
  {
    hide CourseOf;
  }

  lemma UnregisterOrder(c: Conn, gone: set<nat>, x: nat, once: bool)
    requires OrderInv(c, x, once) && x !in gone
    ensures OrderInv(Unregister(c, gone), x, once)
  {
    hide CourseOf;
  }

  lemma TerminateOrder(c: Conn, at: nat, x: nat, once: bool)
    requires OrderInv(c, x, once)
    ensures OrderInv(Terminate(c, at), x, once)
  {
    hide CourseOf;
    if at in c.sessions {
      OthersCourse(c.events, [SessionClosed(at, c.sessions[at].associated, c.sessions[at].order)], x);
    }
  }

  lemma BuryOrder(c: Conn, at: nat, x: nat, once: bool)
    requires OrderInv(c, x, once) && (at in c.sessions ==> c.sessions[at].phase.Pending?)
    ensures OrderInv(Bury(c, at), x, once)
  {
    hide CourseOf;
  }

  /** The stream leaves with its last event. */
  lemma LeaveOrder(c: Conn, e: Event, x: nat, once: bool)
    requires OrderInv(c, x, once) && Closes(e, x)
    requires !CourseOf(c.events, x).Over? && (NeedsOpening(e, x) ==> CourseOf(c.events, x).Under?)
    requires once ==> forall id :: id in c.sessions && c.sessions[id].phase.Pending? ==> x !in c.sessions[id].entries
    ensures OrderInv(Emit(Unregister(c, {x}), [e]), x, once)
  {
    hide CourseOf;
    CourseSnoc(c.events, e, x);
  }

  lemma AddedSame(s: S.Session, y: nat, n: nat, isBidi: bool, x: nat)
    ensures SameFor(s, S.AddAndTrack(s, y, n), x) && SameFor(s, S.AddReceivedStream(s, isBidi), x)
    ensures SameFor(s, S.OnRemoteStreamClosed(s, isBidi), x) && SameFor(s, S.Untrack(s, y), x)
    ensures SameFor(s, S.OnDataConsumed(s, n), x) && SameFor(s, S.MarkFin(s, y), x)
    ensures SameFor(s, S.Untrack(S.OnRemoteStreamClosed(s, isBidi), y), x)
  {
  }

  /** Octets of another stream, or of this one when it is open. */
  lemma AcceptOrder(c: Conn, at: nat, y: nat, isBidi: bool, data: bytes, x: nat, once: bool)
    requires OrderInv(c, x, once) && (y == x ==> IsOpen(c, x) && c.streams[x].session == at)
    ensures OrderInv(Accept(c, at, y, isBidi, data), x, once)
  {
    hide CourseOf, Terminate, S.CheckReceivedData, S.AddAndTrack, SameFor;
    var e := StreamEvent(at, S.Data(isBidi, y, data));
    TerminateOrder(c, at, x, once);
    CourseSnoc(c.events, e, x);
    if at in c.sessions {
      var d := Put(c, at, S.AddAndTrack(c.sessions[at], y, |data|));
      AddedSame(c.sessions[at], y, |data|, isBidi, x);
      PutOrder(c, at, S.AddAndTrack(c.sessions[at], y, |data|), x, once);
      if y != x {
        EmitOrder(d, [e], x, once);
      } else {
        OpenStays(c, at, S.AddAndTrack(c.sessions[at], y, |data|), x);
      }
    } else if y != x {
      EmitOrder(c, [e], x, once);
    }
  }

  lemma OpenStays(c: Conn, at: nat, s: S.Session, x: nat)
    requires at in c.sessions && SameFor(c.sessions[at], s, x)
    ensures IsOpen(Put(c, at, s), x) <==> IsOpen(c, x)
  {
  }

  lemma OthersHold(c: Conn, at: nat, y: nat, data: bytes, x: nat, once: bool)
    requires OrderInv(c, x, once) && at in c.sessions && y != x
    ensures OrderInv(Hold(c, at, y, data), x, once)
  {
    hide OrderInv;
    var s := S.AppendData(c.sessions[at], y, data);
    if data != [] && s.Some? {
      PutOrder(c, at, s.value, x, once);
    } else if data != [] {
      var d := Put(c, at, S.DropEntry(c.sessions[at], y));
      PutOrder(c, at, S.DropEntry(c.sessions[at], y), x, once);
      UnregisterOrder(d, {y}, x, once);
      EmitOrder(Unregister(d, {y}), [Rejected(y, false)], x, once);
    }
  }

  /** The octets are too many for a stream that waits, or it waits no longer. */
  predicate Overflows(c: Conn, x: nat, data: bytes) {
    x in c.streams && var at := c.streams[x].session;
    && at in c.sessions && c.sessions[at].phase.Pending?
    && data != [] && S.AppendData(c.sessions[at], x, data).None?
  }

  /** Early octets of the stream itself; too many are a rejection. */
  lemma OwnHold(c: Conn, at: nat, data: bytes, x: nat, once: bool)
    requires OrderInv(c, x, once) && at in c.sessions && c.sessions[at].phase.Pending?
    requires x in c.streams && c.streams[x].session == at
    ensures at in Hold(c, at, x, data).sessions
    ensures !(Overflows(c, x, data) && CourseOf(c.events, x).Over?) ==> OrderInv(Hold(c, at, x, data), x, once)
    ensures Overflows(c, x, data) && CourseOf(c.events, x).Over? ==> CourseOf(Hold(c, at, x, data).events, x).Broken?
  {
    hide CourseOf, S.AppendData;
    var s := S.AppendData(c.sessions[at], x, data);
    if data != [] && s.None? {
      CourseSnoc(c.events, Rejected(x, false), x);
    } else if data != [] {
      AppendKeeps(c.sessions[at], x, data);
    }
  }

  lemma AppendKeeps(s: S.Session, x: nat, data: bytes)
    requires S.AppendData(s, x, data).Some?
    ensures var r := S.AppendData(s, x, data).value;
      r == s.(entries := r.entries) && x in s.entries && r.entries.Keys == s.entries.Keys
  {
  }
}
