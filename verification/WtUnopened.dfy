/** Streams that speak, or are reset, without having been opened: three short runs, which need no
    stream that ends in one chunk. */
module WtUnopened {
  import opened Bytes
  import S = WtSession
  import opened WtConnection
  import opened WtAccounting
  import opened WtOneChunk
  import opened WtOrder
  import opened WtOrderExact
  import C = WtConservation

  /** A client that knows session 0 only. */
  function Client(s: S.Session, streams: map<nat, Registration>, events: seq<Event>): Conn {
    Conn(Role.Client, map[0 := s], {}, streams, None, events)
  }

  const BIDI: map<nat, Registration> := map[1 := Registration(0, true)]

  function Early(): S.Session {
    S.NEW.(order := [1], entries := map[1 := S.Entry(true, [], false)])
  }

  lemma Four(c: Conn, setup: Setup, w: Input, x: Input, y: Input, z: Input)
    ensures HandleAll(c, setup, [w, x, y, z])
        == Handle(Handle(Handle(Handle(c, setup, w), setup, x), setup, y), setup, z)
  {
    hide Handle;
    assert [w, x, y, z][..3] == [w, x, y];
    Three(c, setup, w, x, y);
  }

  /** The peer opens a stream of a session that is still pending. */
  lemma EarlyStream()
    ensures Handle(Handle(Fresh(Role.Client, None), ROOM, InConnect(0)), ROOM, InNewStream(1, 0, true, []))
         == Client(Early(), BIDI, [])
  {
    var none: map<nat, S.Session> := map[];
    assert none[0 := S.NEW] == map[0 := S.NEW];
    assert Handle(Fresh(Role.Client, None), ROOM, InConnect(0)) == Client(S.NEW, map[], []);
    var entries: map<nat, S.Entry> := map[];
    var streams: map<nat, Registration> := map[];
    assert entries[1 := S.Entry(true, [], false)] == map[1 := S.Entry(true, [], false)];
    assert streams[1 := Registration(0, true)] == BIDI && S.NEW.order + [1] == [1];
    assert S.BufferStream(S.NEW, 1, true) == Some(Early());
    Overwrite(0, S.NEW, Early());
  }

  /** Four inputs, each lawful after those before it. */
  lemma LawfulFour(c: Conn, setup: Setup, w: Input, x: Input, y: Input, z: Input)
    requires C.Lawful(c, w) && C.Lawful(Handle(c, setup, w), x) && C.Lawful(Handle(Handle(c, setup, w), setup, x), y)
    requires C.Lawful(Handle(Handle(Handle(c, setup, w), setup, x), setup, y), z)
    ensures C.LawfulRun(c, setup, [w, x, y, z])
  {
    hide Handle, C.Lawful;
    var run := [w, x, y, z];
    assert run[..0] == [] && run[..1] == [w] && run[..2] == [w, x] && run[..3] == [w, x, y];
    assert HandleAll(c, setup, [w]) == Handle(c, setup, w) by { assert [w][..0] == []; }
    assert HandleAll(c, setup, [w, x]) == Handle(Handle(c, setup, w), setup, x) by { assert [w, x][..1] == [w]; }
    Three(c, setup, w, x, y);
    forall i | 0 <= i < 4
      ensures C.Lawful(HandleAll(c, setup, run[..i]), run[i])
    {
      assert i == 0 || i == 1 || i == 2 || i == 3;
    }
  }

  /** The run of a client, as the order theorem asks for it, with the events of stream 1 out of
      order. */
  ghost predicate OutOfOrder(inputs: seq<Input>, events: seq<Event>) {
    && C.LawfulRun(Fresh(Role.Client, None), ROOM, inputs) && IsPeers(Role.Client, 1)
    && HandleAll(Fresh(Role.Client, None), ROOM, inputs).events == events && !InOrder(events, 1)
  }

  lemma StartIsLawful(third: Input)
    requires third.InDrain? || third == InReset(0, 0)
    ensures C.Lawful(Fresh(Role.Client, None), InConnect(0))
    ensures var c := Handle(Fresh(Role.Client, None), ROOM, InConnect(0));
      C.Lawful(c, InNewStream(1, 0, true, [])) && C.Lawful(Handle(c, ROOM, InNewStream(1, 0, true, [])), third)
  {
    EarlyStream();
  }

  /** GOAWAY drains a session that is still pending; a stream that waits for it is no longer held,
      and its end is reported though it was never opened. */
  lemma DrainedStreamSpeaks()
    ensures OutOfOrder([InConnect(0), InNewStream(1, 0, true, []), InDrain(0), InStreamData(1, [], true)],
                       [SessionDraining(0), StreamEvent(0, S.End(true, 1))])
  {
    hide Handle, InOrder;
    var c := Fresh(Role.Client, None);
    StartIsLawful(InDrain(0));
    LawfulFour(c, ROOM, InConnect(0), InNewStream(1, 0, true, []), InDrain(0), InStreamData(1, [], true));
    Four(c, ROOM, InConnect(0), InNewStream(1, 0, true, []), InDrain(0), InStreamData(1, [], true));
    EarlyStream();
    Drained();
    NeitherIsInOrder();
  }

  lemma Drained()
    ensures Handle(Handle(Client(Early(), BIDI, []), ROOM, InDrain(0)), ROOM, InStreamData(1, [], true)).events
         == [SessionDraining(0), StreamEvent(0, S.End(true, 1))]
  {
    var s := Early().(phase := S.Draining);
    Overwrite(0, Early(), s);
    assert Handle(Client(Early(), BIDI, []), ROOM, InDrain(0)) == Client(s, BIDI, [SessionDraining(0)]);
    assert [SessionDraining(0)] + [StreamEvent(0, S.End(true, 1))]
        == [SessionDraining(0), StreamEvent(0, S.End(true, 1))];
  }

  /** A stream that waits when its session ends, here by a reset of the CONNECT stream, stays
      registered: later octets are reported after the session is closed. */
  lemma OrphanSpeaks()
    ensures OutOfOrder([InConnect(0), InNewStream(1, 0, true, []), InReset(0, 0), InStreamData(1, [7], true)],
                       [SessionClosed(0, {}, [1]), StreamEvent(0, S.Data(true, 1, [7])),
                        StreamEvent(0, S.End(true, 1))])
  {
    hide Handle, InOrder;
    var c := Fresh(Role.Client, None);
    StartIsLawful(InReset(0, 0));
    LawfulFour(c, ROOM, InConnect(0), InNewStream(1, 0, true, []), InReset(0, 0), InStreamData(1, [7], true));
    Four(c, ROOM, InConnect(0), InNewStream(1, 0, true, []), InReset(0, 0), InStreamData(1, [7], true));
    EarlyStream();
    Orphaned();
    NeitherIsInOrder();
  }

  /** ... and so is its reset. */
  lemma OrphanIsReset()
    ensures OutOfOrder([InConnect(0), InNewStream(1, 0, true, []), InReset(0, 0), InReset(1, 9)],
                       [SessionClosed(0, {}, [1]), StreamReset(0, 1, 9)])
  {
    hide Handle, InOrder;
    var c := Fresh(Role.Client, None);
    StartIsLawful(InReset(0, 0));
    EarlyStream();
    Orphaned();
    LawfulFour(c, ROOM, InConnect(0), InNewStream(1, 0, true, []), InReset(0, 0), InReset(1, 9));
    Four(c, ROOM, InConnect(0), InNewStream(1, 0, true, []), InReset(0, 0), InReset(1, 9));
    NeitherIsInOrder();
  }

  lemma Orphaned()
    ensures var c := Handle(Client(Early(), BIDI, []), ROOM, InReset(0, 0));
      && C.Lawful(c, InReset(1, 9))
      && Handle(c, ROOM, InStreamData(1, [7], true)).events
         == [SessionClosed(0, {}, [1]), StreamEvent(0, S.Data(true, 1, [7])), StreamEvent(0, S.End(true, 1))]
      && Handle(c, ROOM, InReset(1, 9)).events == [SessionClosed(0, {}, [1]), StreamReset(0, 1, 9)]
  {
    var c := Conn(Role.Client, map[], {0}, BIDI, None, [SessionClosed(0, {}, [1])]);
    assert Unregister(Client(Early(), BIDI, []), {}).streams == BIDI;
    assert Handle(Client(Early(), BIDI, []), ROOM, InReset(0, 0)) == c;
    assert c.events + [StreamEvent(0, S.Data(true, 1, [7]))] + [StreamEvent(0, S.End(true, 1))]
        == [SessionClosed(0, {}, [1]), StreamEvent(0, S.Data(true, 1, [7])), StreamEvent(0, S.End(true, 1))];
  }

  lemma NeitherIsInOrder()
    ensures !InOrder([SessionDraining(0), StreamEvent(0, S.End(true, 1))], 1)
    ensures !InOrder([SessionClosed(0, {}, [1]), StreamEvent(0, S.Data(true, 1, [7])), StreamEvent(0, S.End(true, 1))],
                     1)
    ensures !InOrder([SessionClosed(0, {}, [1]), StreamReset(0, 1, 9)], 1)
  {
    var a := [SessionDraining(0), StreamEvent(0, S.End(true, 1))];
    var b := [SessionClosed(0, {}, [1]), StreamEvent(0, S.Data(true, 1, [7])), StreamEvent(0, S.End(true, 1))];
    var r := [SessionClosed(0, {}, [1]), StreamReset(0, 1, 9)];
    assert NeedsOpening(a[1], 1) && !OpensBefore(a, 1, 1);
    assert NeedsOpening(b[1], 1) && !OpensBefore(b, 1, 1);
    assert NeedsOpening(r[1], 1) && !OpensBefore(r, 1, 1);
  }
}
