/** A stream that is read again: one short run, in which it is opened after it was rejected. And
    the stream that ends in one chunk, as the order theorem sees it. */
module WtReread {
  import opened Bytes
  import S = WtSession
  import opened WtConnection
  import opened WtAccounting
  import opened WtOneChunk
  import opened WtUnopened
  import opened WtOrder
  import opened WtOrderExact
  import C = WtConservation

  /** The same run of a server as `OutOfOrder` has of a client, for stream 2. */
  ghost predicate ServerOutOfOrder(inputs: seq<Input>, events: seq<Event>) {
    && C.LawfulRun(Fresh(Role.Server, None), ROOM, inputs) && IsPeers(Role.Server, 2)
    && HandleAll(Fresh(Role.Server, None), ROOM, inputs).events == events && !InOrder(events, 2)
  }

  /** Session 0 when the early stream 2 has been rejected: its entry is gone, its place in the
      order is not. */
  function Emptied(): S.Session {
    S.NEW.(order := [2])
  }

  /** And when it has been read again. */
  function Refilled(): S.Session {
    S.NEW.(order := [2, 2], entries := map[2 := S.Entry(false, [], false)])
  }

  const UNI: map<nat, Registration> := map[2 := Registration(0, false)]

  function Filled(): S.Session {
    S.NEW.(order := [2], entries := map[2 := S.Entry(false, [], false)])
  }

  lemma EntryDropped()
    ensures S.DropEntry(Filled(), 2) == Emptied()
  {
  }

  lemma StreamDropped()
    ensures Unregister(One(Emptied(), UNI, []), {2}) == One(Emptied(), map[], [])
  {
  }

  lemma TooMuch(payload: bytes)
    requires |payload| > S.MAX_BUFFERED_STREAM_BYTES
    ensures Handle(One(S.NEW, map[], []), ROOM, InNewStream(2, 0, false, payload))
        == One(Emptied(), map[], [Rejected(2, false)])
  {
    hide S.DropEntry, Unregister;
    var none: map<nat, S.Entry> := map[];
    var streams: map<nat, Registration> := map[];
    assert none[2 := S.Entry(false, [], false)] == map[2 := S.Entry(false, [], false)] && S.NEW.order + [2] == [2];
    assert streams[2 := Registration(0, false)] == UNI;
    assert S.BufferStream(S.NEW, 2, false) == Some(Filled());
    Overwrite(0, S.NEW, Filled());
    assert S.AppendData(Filled(), 2, payload).None?;
    EntryDropped();
    Overwrite(0, Filled(), Emptied());
    StreamDropped();
    assert [] + [Rejected(2, false)] == [Rejected(2, false)];
  }

  lemma ReadAgain()
    ensures Handle(One(Emptied(), map[], [Rejected(2, false)]), ROOM, InNewStream(2, 0, false, []))
         == One(Refilled(), UNI, [Rejected(2, false)])
  {
    var none: map<nat, S.Entry> := map[];
    var streams: map<nat, Registration> := map[];
    assert none[2 := S.Entry(false, [], false)] == map[2 := S.Entry(false, [], false)] && [2] + [2] == [2, 2];
    assert streams[2 := Registration(0, false)] == UNI;
    assert S.BufferStream(Emptied(), 2, false) == Some(Refilled());
    Overwrite(0, Emptied(), Refilled());
  }

  lemma OpenedAfterAll()
    ensures Handle(One(Refilled(), UNI, [Rejected(2, false)]), ROOM, InEstablish(0)).events
         == [Rejected(2, false), SessionEstablished(0), StreamEvent(0, S.Open(false, 2))]
  {
    var s := Start(Refilled(), ROOM).(order := []);
    var entry, t := s.entries[2], S.DropEntry(s, 2);
    var next := S.DeliveredSession(t, 2, entry);
    assert [2, 2][1..] == [2] && [2][1..] == [];
    assert 2 !in next.entries;
    assert S.DeliverFrom(next, []) == S.Delivery(next, [], [], false);
    assert S.DeliverFrom(next, [2]) == S.DeliverFrom(next, []);
    assert S.EventsOf(2, entry) == [S.Open(false, 2)];
    assert S.DeliverFrom(s, [2, 2]) == S.Then(S.EventsOf(2, entry), [], S.Delivery(next, [], [], false));
    assert Wrap(0, S.EventsOf(2, entry) + []) == [StreamEvent(0, S.Open(false, 2))];
    assert Datagrams(0, []) == [];
  }

  lemma StepsAreLawful(payload: bytes)
    requires |payload| > S.MAX_BUFFERED_STREAM_BYTES
    ensures C.Lawful(One(S.NEW, map[], []), InNewStream(2, 0, false, payload))
    ensures C.Lawful(One(Emptied(), map[], [Rejected(2, false)]), InNewStream(2, 0, false, []))
  {
  }

  /** A server rejects an early stream for its size. Nothing remembers it, so the next octets of
      the stream are read as a header; with the response it is opened, after it was rejected. */
  lemma RejectedIsOpened(payload: bytes)
    requires |payload| > S.MAX_BUFFERED_STREAM_BYTES
    ensures ServerOutOfOrder([InConnect(0), InNewStream(2, 0, false, payload), InNewStream(2, 0, false, []),
                              InEstablish(0)],
                             [Rejected(2, false), SessionEstablished(0), StreamEvent(0, S.Open(false, 2))])
  {
    hide Handle, InOrder;
    var c := Fresh(Role.Server, None);
    Connected();
    TooMuch(payload);
    ReadAgain();
    OpenedAfterAll();
    StepsAreLawful(payload);
    LawfulFour(c, ROOM, InConnect(0), InNewStream(2, 0, false, payload), InNewStream(2, 0, false, []), InEstablish(0));
    Four(c, ROOM, InConnect(0), InNewStream(2, 0, false, payload), InNewStream(2, 0, false, []), InEstablish(0));
    NotInOrder();
  }

  lemma NotInOrder()
    ensures !InOrder([Rejected(2, false), SessionEstablished(0), StreamEvent(0, S.Open(false, 2))], 2)
    ensures !InOrder([StreamEvent(0, S.End(false, 2)), SessionEstablished(0), StreamEvent(0, S.Open(false, 2)),
                      StreamEvent(0, S.Data(false, 2, [7]))], 2)
  {
    var a := [Rejected(2, false), SessionEstablished(0), StreamEvent(0, S.Open(false, 2))];
    var b := [StreamEvent(0, S.End(false, 2)), SessionEstablished(0), StreamEvent(0, S.Open(false, 2)),
              StreamEvent(0, S.Data(false, 2, [7]))];
    assert Subject(a[2]) == Some(2 as nat) && Closes(a[0], 2) && ClosesBefore(a, 2, 2);
    assert NeedsOpening(b[0], 2) && !OpensBefore(b, 2, 0);
  }

  /** The run of `EndComesFirst` is lawful, and out of order. */
  lemma OneChunkIsOutOfOrder()
    ensures ServerOutOfOrder([InConnect(0), SHORT, InEstablish(0)],
                             [StreamEvent(0, S.End(false, 2)), SessionEstablished(0), StreamEvent(0, S.Open(false, 2)),
                              StreamEvent(0, S.Data(false, 2, [7]))])
  {
    hide Handle, InOrder;
    var c := Fresh(Role.Server, None);
    EndComesFirst();
    Connected();
    ShortIsLawful();
    var run := [InConnect(0), SHORT, InEstablish(0)];
    assert run[..0] == [] && run[..1] == [InConnect(0)];
    assert HandleAll(c, ROOM, [InConnect(0)]) == Handle(c, ROOM, InConnect(0)) by { assert [InConnect(0)][..0] == []; }
    NotInOrder();
  }

  lemma ShortIsLawful()
    ensures C.Lawful(One(S.NEW, map[], []), SHORT)
  {
  }
}
