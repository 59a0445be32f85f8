/** What the application is told about streams and datagrams, and what is kept for later, input
    by input and told from the state before. */
module WtTold {
  import opened Bytes
  import opened WtWindows
  import S = WtSession
  import opened WtConnection
  import opened WtAdmission
  import opened WtEndings

  // ---- New streams ----------------------------------------------------------------------

  /** There is no such session, nor can there be: it is draining or gone, or the client never
      asked for it, or a GOAWAY excludes it. */
  predicate Unwanted(c: Conn, at: nat) {
    if at in c.sessions then !c.sessions[at].phase.Pending? && !c.sessions[at].phase.Established?
    else c.role.Client? || at in c.closed || (c.goaway.Some? && at >= c.goaway.value)
  }

  /** The report that ends an established session which a new stream has joined. */
  function Closing(s: S.Session, at: nat, stream: nat): Event {
    SessionClosed(at, s.associated + {stream}, s.order)
  }

  /** What is told about a new stream of the peer. */
  function Answer(c: Conn, stream: nat, at: nat, isBidi: bool, payload: bytes): seq<Event> {
    if at in c.sessions && c.sessions[at].phase.Established? then
      var s := c.sessions[at];
      if NoPlace(s, isBidi) then [Closing(s, at, stream)]
      else [StreamEvent(at, S.Open(isBidi, stream))] + (if payload == [] then []
                                                        else if Overrun(s, |payload|) then [Closing(s, at, stream)]
                                                        else [StreamEvent(at, S.Data(isBidi, stream, payload))])
    else if Held(c, at, payload) then []
    else [Rejected(stream, Unwanted(c, at))]
  }

  /** A new stream is opened with its octets, or waits in silence, or is rejected: because its
      session is gone, or else because there is no room. */
  lemma NewStreamTells(c: Conn, stream: nat, at: nat, isBidi: bool, payload: bytes)
    ensures NewStream(c, stream, at, isBidi, payload).events == c.events + Answer(c, stream, at, isBidi, payload)
  {
    hide Associate, MayWait, PendingCount, S.CheckReceivedStream, S.CheckReceivedData, S.AddReceivedStream,
        S.AddAndTrack,
        NoPlace, Overrun;
    var start := c.(streams := c.streams[stream := Registration(at, isBidi)]);
    AssociateIs(start, stream, at, isBidi);
    SameAdmission(c, start, at);
    if at in c.sessions && c.sessions[at].phase.Established? {
      var s := c.sessions[at].(associated := c.sessions[at].associated + {stream});
      JoinedWindows(c.sessions[at], s, isBidi, |payload|);
      OverrunIs(s, 0);
      OverrunIs(S.AddReceivedStream(s, isBidi), |payload|);
      NothingOverruns(c.sessions[at]);
    } else {
      GoneIs(start, stream, at, isBidi);
      assert c.events + [] == c.events;
    }
  }

  lemma NothingOverruns(s: S.Session)
    ensures !Overrun(s, 0)
  {
  }

  lemma GoneIs(c: Conn, stream: nat, at: nat, isBidi: bool)
    ensures Associate(c, stream, at, isBidi).1.Gone? <==> Unwanted(c, at)
  {
    hide PendingCount;
  }

  /** A stream that waits does so at the end of the queue, with all it brought. */
  lemma HeldIsKept(c: Conn, stream: nat, at: nat, isBidi: bool, payload: bytes)
    requires Held(c, at, payload)
    ensures var d, s := NewStream(c, stream, at, isBidi, payload), if at in c.sessions then c.sessions[at] else S.NEW;
      && d.sessions == c.sessions[at := s.(order := s.order + [stream],
                                           entries := s.entries[stream := S.Entry(isBidi, payload, false)])]
      && d.streams == c.streams[stream := Registration(at, isBidi)] && d.closed == c.closed
  {
    hide Associate, MayWait, PendingCount;
    var start := c.(streams := c.streams[stream := Registration(at, isBidi)]);
    AssociateIs(start, stream, at, isBidi);
    SameAdmission(c, start, at);
    assert [] + payload == payload;
    var s := if at in c.sessions then c.sessions[at] else S.NEW;
    assert s.entries[stream := S.Entry(isBidi, [], false)][stream := S.Entry(isBidi, payload, false)]
        == s.entries[stream := S.Entry(isBidi, payload, false)];
  }

  // ---- Delivery in order --------------------------------------------------------------------

  /** What the waiting streams amount to, one after the other. */
  function InOrder(entries: map<nat, S.Entry>, ids: seq<nat>): seq<S.Event> {
    if ids == [] then []
    else if ids[0] !in entries then InOrder(entries, ids[1..])
    else S.EventsOf(ids[0], entries[ids[0]]) + InOrder(entries - {ids[0]}, ids[1..])
  }

  /** Delivery hands the waiting streams over in the order in which they came, all of them; a broken
      limit cuts that short, behind one opening at most. */
  lemma {:induction false} DeliveredInOrder(s: S.Session, ids: seq<nat>) returns (n: nat)
    ensures var (told, all) := (S.DeliverFrom(s, ids).events, InOrder(s.entries, ids));
      && n <= |all| && n <= |told| <= n + 1 && told[..n] == all[..n]
      && (!S.DeliverFrom(s, ids).violation ==> told == all)
    decreases |ids|
  {
    hide S.DeliveredSession, S.OpenedSession, S.CheckReceivedStream, S.CheckReceivedData, S.EventsOf;
    n := 0;
    if ids != [] {
      if ids[0] !in s.entries {
        n := DeliveredInOrder(s, ids[1..]);
      } else {
        var stream, entry, t := ids[0], s.entries[ids[0]], S.DropEntry(s, ids[0]);
        DeliveredScope(t, stream, entry);
        assert t.entries == s.entries - {stream};
        if S.CheckReceivedStream(t, entry.isBidi)
           && (entry.data == [] || S.CheckReceivedData(S.OpenedSession(t, stream, entry), |entry.data|)) {
          var k := DeliveredInOrder(S.DeliveredSession(t, stream, entry), ids[1..]);
          n := |S.EventsOf(stream, entry)| + k;
          Prepended(S.EventsOf(stream, entry), S.DeliverFrom(S.DeliveredSession(t, stream, entry), ids[1..]).events,
                    InOrder(t.entries, ids[1..]), k);
        }
      }
    }
  }

  lemma Prepended(part: seq<S.Event>, a: seq<S.Event>, b: seq<S.Event>, k: nat)
    requires k <= |a| && k <= |b| && a[..k] == b[..k]
    ensures (part + a)[..|part| + k] == (part + b)[..|part| + k]
  {
    assert (part + a)[..|part| + k] == part + a[..k];
    assert (part + b)[..|part| + k] == part + b[..k];
  }

  // ---- Octets and ends --------------------------------------------------------------------

  /** What is told when octets, or the end, of a registered stream arrive outside a pending
      session: the octets, unless they are more than was announced, and the end. */
  function Relay(c: Conn, stream: nat, data: bytes, fin: bool): seq<Event>
    requires stream in c.streams
  {
    var r := c.streams[stream];
    if r.session in c.sessions && Overrun(c.sessions[r.session], |data|) then
      var s := c.sessions[r.session];
      [SessionClosed(r.session, s.associated, s.order)]
      + (if fin && !r.isBidi && stream !in s.associated then [StreamEvent(r.session, S.End(false, stream))] else [])
    else
      (if data == [] then [] else [StreamEvent(r.session, S.Data(r.isBidi, stream, data))])
      + (if fin then [StreamEvent(r.session, S.End(r.isBidi, stream))] else [])
  }

  lemma StreamDataTells(c: Conn, stream: nat, data: bytes, fin: bool)
    requires stream in c.streams && !IsLocalUni(c.role, stream)
    requires !(c.streams[stream].session in c.sessions && c.sessions[c.streams[stream].session].phase.Pending?)
    ensures StreamData(c, stream, data, fin).events == c.events + Relay(c, stream, data, fin)
  {
    hide Overrun, S.CheckReceivedData, S.AddAndTrack, S.OnRemoteStreamClosed, S.Untrack;
    var r := c.streams[stream];
    if r.session in c.sessions {
      OverrunIs(c.sessions[r.session], |data|);
      NothingOverruns(c.sessions[r.session]);
    }
    EndSilent(Accept(c, r.session, stream, r.isBidi, data), r.session, stream, r.isBidi);
  }

  lemma EndSilent(c: Conn, at: nat, stream: nat, isBidi: bool)
    ensures EndStream(c, at, stream, isBidi).events == c.events
  {
  }

  /** While the session is pending, octets and end are kept in order and nothing is told; a stream
      that brings too much, or that is not waiting, is rejected and no longer registered. */
  lemma StreamDataWaits(c: Conn, stream: nat, data: bytes, fin: bool)
    requires stream in c.streams && !IsLocalUni(c.role, stream)
    requires c.streams[stream].session in c.sessions && c.sessions[c.streams[stream].session].phase.Pending?
    ensures var d, at := StreamData(c, stream, data, fin), c.streams[stream].session;
      var s := c.sessions[at];
      if data == [] && stream !in s.entries then d == c
      else if stream in s.entries && (data == [] || |s.entries[stream].data| + |data| <= 65536) then
        var e := s.entries[stream];
        d == c.(sessions := c.sessions[at := s.(entries := s.entries[stream := S.Entry(e.isBidi, e.data + data,
                                                                                       e.fin || fin)])])
      else
        d.events == c.events + [Rejected(stream, false)] && stream !in d.streams && stream !in d.sessions[at].entries
  {
    var at := c.streams[stream].session;
    var s := c.sessions[at];
    if stream in s.entries {
      var e := s.entries[stream];
      assert e.data + [] == e.data;
      assert s.entries[stream := e] == s.entries;
      assert s.(entries := s.entries) == s && c.sessions[at := s] == c.sessions;
      var once := s.entries[stream := S.Entry(e.isBidi, e.data + data, e.fin)];
      assert once[stream := S.Entry(e.isBidi, e.data + data, true)]
          == s.entries[stream := S.Entry(e.isBidi, e.data + data, true)];
      assert c.sessions[at := s.(entries := once)][at := s.(entries := once[stream := S.Entry(e.isBidi, e.data + data,
                                                                                            true)])]
          == c.sessions[at := s.(entries := once[stream := S.Entry(e.isBidi, e.data + data, true)])];
    }
  }

  // ---- Resets and ends ------------------------------------------------------------------------

  /** What the end or the reset of a stream changes in its session, octets aside: its account is
      closed, and a place is given back if the stream was the peer's. */
  ghost predicate PlaceBack(s: S.Session, r: S.Session, stream: nat, isBidi: bool, isLocal: bool) {
    && r.phase == s.phase && r.order == s.order && r.entries == s.entries && r.datagrams == s.datagrams
    && r.tracked.Keys == s.tracked.Keys - {stream} && (forall x :: x in r.tracked ==> r.tracked[x] == s.tracked[x])
    && r.windows.Some? == s.windows.Some?
    && (s.windows.Some? ==>
          var (w, v) := (s.windows.value, r.windows.value);
          && v.bidi == (if isBidi && !isLocal then CloseStream(w.bidi).0 else w.bidi)
          && v.uni == (if !isBidi && !isLocal then CloseStream(w.uni).0 else w.uni))
  }

  /** `due` octets were received and consumed at once. */
  ghost predicate Charged(s: S.Session, r: S.Session, due: nat) {
    s.windows.Some? && r.windows.Some? ==>
      r.windows.value.data == ConsumeData(ReceiveData(s.windows.value.data, due), due).0
  }

  /** The reset of a registered stream, when it breaks no limit, is passed on with its final size;
      the octets that never came are charged all the same, and the stream is forgotten. */
  lemma ResetTells(c: Conn, stream: nat, finalSize: nat)
    requires stream in c.streams && !IsLocalUni(c.role, stream)
    requires stream !in c.sessions && stream !in c.closed && !Waits(c, stream)
    requires c.streams[stream].session in c.sessions ==>
      !Overrun(c.sessions[c.streams[stream].session], StillDue(c, stream, finalSize))
    ensures var d, r := Reset(c, stream, finalSize), c.streams[stream];
      && d.events == c.events + [StreamReset(r.session, stream, finalSize)]
      && d.streams == (map x | x in c.streams && x != stream :: c.streams[x]) && d.closed == c.closed
      && d.sessions.Keys == c.sessions.Keys
      && (forall x :: x in c.sessions && x != r.session ==> d.sessions[x] == c.sessions[x])
      && (r.session in c.sessions ==>
            var s := c.sessions[r.session];
            && PlaceBack(s, d.sessions[r.session], stream, r.isBidi, IsLocalBidi(c.role, stream))
            && Charged(s, d.sessions[r.session], StillDue(c, stream, finalSize))
            && d.sessions[r.session].associated == s.associated - {stream})
  {
    hide Overrun, Residual, StillDue, S.CheckReceivedData;
    var r := c.streams[stream];
    assert Unregister(c, {stream}).streams == map x | x in c.streams && x != stream :: c.streams[x];
    if r.session in c.sessions {
      DueIs(c, stream, finalSize);
      OverrunIs(c.sessions[r.session], Residual(c, stream, finalSize));
      ResetSettles(c.sessions[r.session], c.role, stream, r.isBidi, Residual(c, stream, finalSize));
    }
  }

  lemma ResetSettles(s: S.Session, role: Role, stream: nat, isBidi: bool, n: nat)
    ensures PlaceBack(s, ResetSession(s, role, stream, isBidi, n), stream, isBidi, IsLocalBidi(role, stream))
    ensures Charged(s, ResetSession(s, role, stream, isBidi, n), n)
    ensures ResetSession(s, role, stream, isBidi, n).associated == s.associated - {stream}
  {
    hide ConsumeData, CloseStream;
  }

  /** The end of a stream of the peer gives its place back; it stays associated. A local stream
      keeps its account for a later reset. */
  lemma EndSettles(c: Conn, at: nat, stream: nat, isBidi: bool)
    requires at in c.sessions
    ensures var d := EndStream(c, at, stream, isBidi);
      if IsLocalBidi(c.role, stream) then d == c
      else
        && PlaceBack(c.sessions[at], d.sessions[at], stream, isBidi, false)
        && d.sessions[at].associated == c.sessions[at].associated && stream !in d.streams
        && (c.sessions[at].windows.Some? ==>
              d.sessions[at].windows.value.data == c.sessions[at].windows.value.data)
  {
    hide ConsumeData, CloseStream;
  }

  // ---- Before and beside the streams --------------------------------------------------------------

  /** A waiting stream that is reset is forgotten without a word, and so is its place in the queue. */
  lemma WaitingReset(c: Conn, stream: nat, finalSize: nat, id: nat)
    requires stream !in c.sessions && stream !in c.closed && Waits(c, stream) && id in c.sessions
    ensures var d := Reset(c, stream, finalSize);
      && d.events == c.events && d.streams == c.streams && d.closed == c.closed && d.sessions.Keys == c.sessions.Keys
      && var (s, r) := (c.sessions[id], d.sessions[id]);
        && stream !in r.entries && (forall x :: x != stream ==> (x in r.entries <==> x in s.entries))
        && (forall x :: x in r.entries ==> r.entries[x] == s.entries[x])
        && (stream in s.entries ==> stream !in r.order && forall x :: x != stream ==> (x in r.order <==> x in s.order))
        && r == s.(entries := r.entries, order := r.order) && (stream !in s.entries ==> r == s)
  {
  }

  /** A local stream is taken up exactly when it is new, local and of an established session; it is
      then associated, and nothing is told. */
  lemma RegisterIs(c: Conn, stream: nat, id: nat)
    ensures var d := RegisterLocal(c, stream, id);
      var isLocal := if c.role.Client? then stream % 4 == 0 || stream % 4 == 2 else stream % 4 == 1 || stream % 4 == 3;
      if isLocal && stream !in c.streams && id in c.sessions && c.sessions[id].phase.Established? then
        d == c.(sessions := c.sessions[id := c.sessions[id].(associated := c.sessions[id].associated + {stream})],
                streams := c.streams[stream := Registration(id, stream % 4 < 2)])
      else d == c
  {
  }

  /** A session that starts has the limits of SETTINGS, each for its own kind, nothing received yet,
      and announces those that are not 0 when they have to be announced by capsules. */
  lemma StartIs(s: S.Session, setup: Setup)
    ensures var r := Start(s, setup);
      && r == s.(phase := S.Established, windows := r.windows, capsules := r.capsules)
      && (!setup.flowControl ==> r.windows == s.windows && r.capsules == s.capsules)
      && (setup.flowControl ==>
            && r.windows.Some?
            && var w := r.windows.value;
              && w.uni == StreamWindow(setup.maxUni, setup.maxUni, 0, 0)
              && w.bidi == StreamWindow(setup.maxBidi, setup.maxBidi, 0, 0)
              && w.data == DataWindow(setup.maxData, setup.maxData, 0, 0))
      && (setup.flowControl && setup.queueCapsules ==>
            && s.capsules <= r.capsules
            && (forall x :: x in r.capsules[|s.capsules|..] <==>
                  || (x == S.MaxStreams(true, setup.maxBidi) && setup.maxBidi > 0)
                  || (x == S.MaxStreams(false, setup.maxUni) && setup.maxUni > 0)
                  || (x == S.MaxData(setup.maxData) && setup.maxData > 0)))
  {
    var on := setup.flowControl && setup.queueCapsules;
    if on {
      CapsulesAre(s, setup);
    } else {
      assert s.capsules + [] + [] + [] == s.capsules;
    }
  }

  lemma CapsulesAre(s: S.Session, setup: Setup)
    requires setup.flowControl && setup.queueCapsules
    ensures var r := Start(s, setup);
      && s.capsules <= r.capsules
      && (forall x :: x in r.capsules[|s.capsules|..] <==>
            || (x == S.MaxStreams(true, setup.maxBidi) && setup.maxBidi > 0)
            || (x == S.MaxStreams(false, setup.maxUni) && setup.maxUni > 0)
            || (x == S.MaxData(setup.maxData) && setup.maxData > 0))
  {
    var r := Start(s, setup);
    var a := if setup.maxBidi > 0 then [S.MaxStreams(true, setup.maxBidi)] else [];
    var b := if setup.maxUni > 0 then [S.MaxStreams(false, setup.maxUni)] else [];
    var e := if setup.maxData > 0 then [S.MaxData(setup.maxData)] else [];
    assert r.capsules == s.capsules + (a + b + e);
    assert r.capsules[|s.capsules|..] == a + b + e;
  }

  /** Whatever opens the window further is announced by a capsule, and nothing else is. */
  lemma AnnouncedIs(s: S.Session, n: nat, isBidi: bool)
    requires s.windows.Some?
    ensures var (r, (v, max)) := (S.OnDataConsumed(s, n), ConsumeData(s.windows.value.data, n));
      r == s.(windows := Some(s.windows.value.(data := v)),
              capsules := s.capsules + if max.Some? then [S.MaxData(max.value)] else [])
    ensures var w := s.windows.value;
      var (r, (v, max)) := (S.OnRemoteStreamClosed(s, isBidi), CloseStream(if isBidi then w.bidi else w.uni));
      r == s.(windows := Some(if isBidi then w.(bidi := v) else w.(uni := v)),
              capsules := s.capsules + if max.Some? then [S.MaxStreams(isBidi, max.value)] else [])
  {
    hide ConsumeData, CloseStream;
    assert s.capsules + [] == s.capsules;
  }

  /** What the application has consumed counts for its session, and for nothing else. */
  lemma ConsumedIs(c: Conn, id: nat, n: nat)
    ensures var d := Consumed(c, id, n);
      && d == c.(sessions := d.sessions) && d.sessions.Keys == c.sessions.Keys
      && (forall x :: x in c.sessions && (x != id || c.sessions[x].windows.None?) ==> d.sessions[x] == c.sessions[x])
      && (id in c.sessions && c.sessions[id].windows.Some? ==>
            var (s, r) := (c.sessions[id], d.sessions[id]);
            var (v, max) := ConsumeData(s.windows.value.data, n);
            r == s.(windows := Some(s.windows.value.(data := v)),
                    capsules := s.capsules + if max.Some? then [S.MaxData(max.value)] else []))
  {
    hide ConsumeData;
    if id in c.sessions && c.sessions[id].windows.Some? {
      AnnouncedIs(c.sessions[id], n, true);
    }
  }

  /** A session drains once it is told to, pending or established, and that is reported once. */
  lemma DrainIs(c: Conn, id: nat)
    ensures var d := Drain(c, id);
      if id in c.sessions && (c.sessions[id].phase.Pending? || c.sessions[id].phase.Established?) then
        && d.sessions == c.sessions[id := c.sessions[id].(phase := S.Draining)]
        && d.events == c.events + [SessionDraining(id)] && d.streams == c.streams && d.closed == c.closed
      else d == c
  {
  }

  // ---- Datagrams ------------------------------------------------------------------------------

  /** A datagram of an established or draining session is handed over as it came; for a pending
      session it waits, up to a hundred of them, and one for a session that may still come creates
      it; any other is dropped. */
  lemma DatagramTold(c: Conn, id: nat, payload: bytes)
    ensures var d := FeedDatagram(c, id, payload);
      if id in c.sessions && (c.sessions[id].phase.Established? || c.sessions[id].phase.Draining?) then
        d == c.(events := c.events + [Datagram(id, payload)])
      else if id in c.sessions && c.sessions[id].phase.Pending? && |c.sessions[id].datagrams| < 100 then
        d == c.(sessions := c.sessions[id := c.sessions[id].(datagrams := c.sessions[id].datagrams + [payload])])
      else if id !in c.sessions && !Unwanted(c, id) && PendingCount(c) < 16 then
        d == c.(sessions := c.sessions[id := S.NEW.(datagrams := [payload])])
      else d == c
  {
    hide PendingCount;
    assert [] + [payload] == [payload];
    if id in c.sessions {
      assert c.sessions[id := c.sessions[id]] == c.sessions;
    }
  }

  /** Delivery does not touch the datagrams that wait; without a violation they are handed over in
      their order, right behind the streams, and wait no more. */
  lemma DatagramsDelivered(c: Conn, id: nat, setup: Setup)
    requires id in c.sessions && c.sessions[id].phase.Pending?
    ensures var d, s := S.Deliver(Start(c.sessions[id], setup)), c.sessions[id];
      !d.violation ==>
        && Establish(c, id, setup).events
           == c.events + ([SessionEstablished(id)] + Wrap(id, d.events)) + Datagrams(id, s.datagrams)
        && Establish(c, id, setup).sessions[id].datagrams == []
  {
    hide S.DeliverFrom, Wrap, Datagrams, ClosedIds;
    var t := Start(c.sessions[id], setup);
    DeliverKeepsDatagrams(t.(order := []), t.order);
  }

  lemma {:induction false} RestoreKeepsDatagrams(s: S.Session, ids: seq<nat>)
    ensures S.RestoreAll(s, ids).datagrams == s.datagrams
    decreases |ids|
  {
    if ids != [] {
      if ids[0] in s.entries {
        RestoreKeepsDatagrams(S.RestoreEntry(S.DropEntry(s, ids[0]), ids[0], s.entries[ids[0]]), ids[1..]);
      } else {
        RestoreKeepsDatagrams(s, ids[1..]);
      }
    }
  }

  lemma {:induction false} DeliverKeepsDatagrams(s: S.Session, ids: seq<nat>)
    ensures S.DeliverFrom(s, ids).session.datagrams == s.datagrams
    decreases |ids|
  {
    hide S.DeliveredSession, S.OpenedSession, S.CheckReceivedStream, S.CheckReceivedData;
    if ids != [] {
      if ids[0] !in s.entries {
        DeliverKeepsDatagrams(s, ids[1..]);
      } else {
        var stream, entry, t := ids[0], s.entries[ids[0]], S.DropEntry(s, ids[0]);
        OneKeepsDatagrams(t, stream, entry);
        RestoreKeepsDatagrams(S.RestoreEntry(t, stream, entry), ids[1..]);
        RestoreKeepsDatagrams(S.OpenedSession(t, stream, entry), ids[1..]);
        DeliverKeepsDatagrams(S.DeliveredSession(t, stream, entry), ids[1..]);
      }
    }
  }

  lemma OneKeepsDatagrams(s: S.Session, stream: nat, entry: S.Entry)
    ensures S.OpenedSession(s, stream, entry).datagrams == s.datagrams
    ensures S.DeliveredSession(s, stream, entry).datagrams == s.datagrams
  {
  }
}
