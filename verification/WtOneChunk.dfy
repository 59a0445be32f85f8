/** What goes wrong with unidirectional streams that end in one chunk: two short runs. */
module WtOneChunk {
  import opened Bytes
  import opened WtWindows
  import S = WtSession
  import opened WtConnection
  import opened WtCredit
  import opened WtCreditRuns
  import C = WtConservation

  const ROOM: Setup := Setup(true, 2, 2, 100, false)

  const SHORT: Input := InOneChunk(2, 0, [7])

  /** A connection that knows session 0 only. */
  function One(s: S.Session, streams: map<nat, Registration>, events: seq<Event>): Conn {
    Conn(Role.Server, map[0 := s], {}, streams, None, events)
  }

  lemma Overwrite<T>(k: nat, a: T, b: T)
    ensures map[k := a][k := b] == map[k := b]
  {
  }

  lemma Three(c: Conn, setup: Setup, x: Input, y: Input, z: Input)
    ensures HandleAll(c, setup, [x, y, z]) == Handle(Handle(Handle(c, setup, x), setup, y), setup, z)
  {
    hide Handle;
    assert [x, y, z][..2] == [x, y] && [x, y][..1] == [x] && [x][..0] == [];
    assert HandleAll(c, setup, [x]) == Handle(c, setup, x);
    assert HandleAll(c, setup, [x, y]) == Handle(Handle(c, setup, x), setup, y);
  }

  lemma Connected()
    ensures Handle(Fresh(Role.Server, None), ROOM, InConnect(0)) == One(S.NEW, map[], [])
  {
    var none: map<nat, S.Session> := map[];
    assert none[0 := S.NEW] == map[0 := S.NEW];
  }

  /** The session with room for two streams each way. */
  function Ready(): S.Session {
    S.NEW.(phase := S.Established, windows := Some(S.Windows(NewStreams(2), NewStreams(2), NewData(100))))
  }

  lemma Readied()
    ensures Handle(One(S.NEW, map[], []), ROOM, InEstablish(0)) == One(Ready(), map[], [SessionEstablished(0)])
  {
    var c := One(S.NEW, map[], []);
    assert Start(S.NEW, ROOM) == Ready();
    assert S.Deliver(Ready()) == S.Delivery(Ready(), [], [], false);
    Overwrite(0, S.NEW, Ready());
    assert Unregister(One(Ready(), map[], [SessionEstablished(0)]), ClosedIds([])).streams == map[];
    assert [SessionEstablished(0)] + Wrap(0, []) == [SessionEstablished(0)];
    Overwrite(0, Ready(), Ready());
    assert [SessionEstablished(0)] + Datagrams(0, []) == [SessionEstablished(0)];
  }

  /** The place of a stream that ended in one chunk is not given back. */
  lemma PlaceIsLost()
    ensures var c := HandleAll(Fresh(Role.Server, None), ROOM, [InConnect(0), InEstablish(0), SHORT]);
      && c.events == [SessionEstablished(0), StreamEvent(0, S.Open(false, 2)), StreamEvent(0, S.Data(false, 2, [7])),
                      StreamEvent(0, S.End(false, 2))]
      && 0 in c.sessions && c.sessions[0].windows.Some?
      && c.sessions[0].windows.value.uni.received == 1 && c.sessions[0].windows.value.uni.closed == 0
  {
    hide Handle;
    Three(Fresh(Role.Server, None), ROOM, InConnect(0), InEstablish(0), SHORT);
    Connected();
    Readied();
    EndedAtOnce();
  }

  lemma EndedAtOnce()
    ensures var c := Handle(One(Ready(), map[], [SessionEstablished(0)]), ROOM, SHORT);
      && c.events == [SessionEstablished(0), StreamEvent(0, S.Open(false, 2)), StreamEvent(0, S.Data(false, 2, [7])),
                      StreamEvent(0, S.End(false, 2))]
      && 0 in c.sessions && c.sessions[0].windows.Some?
      && c.sessions[0].windows.value.uni.received == 1 && c.sessions[0].windows.value.uni.closed == 0
  {
  }

  /** If the session is still pending, the end is reported before the stream is, and no end
      follows. */
  lemma EndComesFirst()
    ensures HandleAll(Fresh(Role.Server, None), ROOM, [InConnect(0), SHORT, InEstablish(0)]).events
         == [StreamEvent(0, S.End(false, 2)), SessionEstablished(0), StreamEvent(0, S.Open(false, 2)),
             StreamEvent(0, S.Data(false, 2, [7]))]
  {
    hide Handle;
    Three(Fresh(Role.Server, None), ROOM, InConnect(0), SHORT, InEstablish(0));
    Connected();
    Held();
    Late();
  }

  function WithEntry(): S.Session {
    S.NEW.(order := [2], entries := map[2 := S.Entry(false, [7], false)])
  }

  lemma Held()
    ensures Handle(One(S.NEW, map[], []), ROOM, SHORT) == One(WithEntry(), map[], [StreamEvent(0, S.End(false, 2))])
  {
    var none: map<nat, S.Entry> := map[];
    var empty, full := S.Entry(false, [], false), S.Entry(false, [7], false);
    var first := S.NEW.(order := [2], entries := map[2 := empty]);
    assert none[2 := empty] == map[2 := empty] && S.NEW.order + [2] == [2] && [] + [7] == [7];
    assert S.BufferStream(S.NEW, 2, false) == Some(first);
    Overwrite(2, empty, full);
    assert S.AppendData(first, 2, [7]) == Some(WithEntry());
    Overwrite(0, S.NEW, first);
    Overwrite(0, first, WithEntry());
    var streams: map<nat, Registration> := map[];
    var d := One(WithEntry(), streams[2 := Registration(0, false)], []);
    assert NewStream(One(S.NEW, map[], []), 2, 0, false, [7]) == d;
    assert Unregister(d, {2}).streams == map[];
  }

  lemma Late()
    ensures Handle(One(WithEntry(), map[], [StreamEvent(0, S.End(false, 2))]), ROOM, InEstablish(0)).events
         == [StreamEvent(0, S.End(false, 2)), SessionEstablished(0), StreamEvent(0, S.Open(false, 2)),
             StreamEvent(0, S.Data(false, 2, [7]))]
  {
    var s := Start(WithEntry(), ROOM).(order := []);
    var entry, t := s.entries[2], S.DropEntry(s, 2);
    var next := S.DeliveredSession(t, 2, entry);
    assert [2][1..] == [];
    assert S.DeliverFrom(next, []) == S.Delivery(next, [], [], false);
    assert S.EventsOf(2, entry) == [S.Open(false, 2), S.Data(false, 2, [7])];
    assert S.DeliverFrom(s, [2]) == S.Then(S.EventsOf(2, entry), [], S.Delivery(next, [], [], false));
    assert Wrap(0, S.EventsOf(2, entry) + [])
        == [StreamEvent(0, S.Open(false, 2)), StreamEvent(0, S.Data(false, 2, [7]))];
    assert Datagrams(0, []) == [];
  }
}
