/** The premises of transparency can be met: a run in which a whole stream comes ahead of
    SETTINGS, of the CONNECT request of its session, and of the response. */
module WtEarliestRun {
  import opened Bytes
  import opened WtEarlyStream
  import opened WtTransparency
  import opened WtConnection
  import opened WtStreamView
  import opened WtInterleaving
  import K = WtConnection
  import C = WtConservation
  import D = WtDelivery
  import V = VarInts
  import S = WtSession

  const PLAIN: Setup := Setup(false, 0, 0, 0, false)

  /** A whole stream before SETTINGS, then SETTINGS, then the CONNECT request, then the response. */
  function EarliestRun(w: Who, whole: bytes): seq<Happening> {
    [Here(Chunk(whole, true)), Here(SettingsArrive), Elsewhere(InConnect(w.session)), Here(Arrival.SessionEstablished)]
  }

  function EarliestInputs(w: Who, payload: bytes): seq<Input> {
    JoinInputs(w, payload, true) + [InConnect(w.session), InEstablish(w.session)]
  }

  lemma EarliestArrivals(w: Who, whole: bytes)
    ensures var run := EarliestRun(w, whole);
      && Arrivals(run[..0]) == [] && Arrivals(run[..1]) == [Chunk(whole, true)]
      && Arrivals(run[..2]) == Arrivals(run[..3]) == [Chunk(whole, true), SettingsArrive]
      && Arrivals(run[..4]) == Arrivals(run) == [Chunk(whole, true), SettingsArrive, Arrival.SessionEstablished]
  {
    var run := EarliestRun(w, whole);
    assert run[..4] == run;
    assert run[..4][..3] == run[..3] && run[..3][..2] == run[..2] && run[..2][..1] == run[..1] && run[..1][..0] == [];
    assert Arrivals(run[..1]) == [] + [Chunk(whole, true)];
    assert Arrivals(run[..2]) == [Chunk(whole, true)] + [SettingsArrive];
    assert Arrivals(run[..4]) == [Chunk(whole, true), SettingsArrive] + [Arrival.SessionEstablished];
  }

  lemma EarliestAllInputs(w: Who, whole: bytes, n: nat, m: nat)
    requires IsStreamOf(w, whole, n, m) && |whole| <= S.MAX_BUFFERED_STREAM_BYTES
    ensures var run, joins := EarliestRun(w, whole), JoinInputs(w, whole[n + m..], true);
      && AllInputs(w, run[..0]) == [] && AllInputs(w, run[..1]) == []
      && AllInputs(w, run[..2]) == joins && AllInputs(w, run[..3]) == joins + [InConnect(w.session)]
      && AllInputs(w, run[..4]) == AllInputs(w, run) == EarliestInputs(w, whole[n + m..])
  {
    hide Inputs, IsStream, Shape, After, JoinInputs, AllInputs, Arrivals, Schedule, Octets, Finished;
    var run := EarliestRun(w, whole);
    EarliestArrivals(w, whole);
    EarliestSchedule(w, whole, n, m);
    assert run[..4] == run && run[..0] == [];
    NothingIn(w);
    NextInputs(w, run, 0);
    NextInputs(w, run, 1);
    NextInputs(w, run, 2);
    NextInputs(w, run, 3);
    var e0, e1 := After(w.stream, []), After(w.stream, [Chunk(whole, true)]);
    ShapeAfter(w.stream, [], whole, n, m);
    ShapeAfter(w.stream, [Chunk(whole, true)], whole, n, m);
    assert [] + whole == whole;
    OctetsSnoc([], Chunk(whole, true));
    FinishedSnoc([Chunk(whole, true)]);
    ChunkInputs(e0, w, [], whole, true, whole, n, m);
    SettingsInputs(e1, w, whole, true, whole, n, m);
    HeaderFits(whole, n, m);
    EstablishInputs(After(w.stream, Arrivals(run[..3])), w);
    var joins := JoinInputs(w, whole[n + m..], true);
    assert [] + joins == joins;
    assert joins + [InConnect(w.session)] + [InEstablish(w.session)]
        == joins + [InConnect(w.session), InEstablish(w.session)];
  }

  lemma NothingIn(w: Who)
    ensures AllInputs(w, []) == [] && Octets([]) == [] && !Finished([])
  {
  }

  lemma NextInputs(w: Who, run: seq<Happening>, k: nat)
    requires k < |run|
    ensures AllInputs(w, run[..k + 1])
         == AllInputs(w, run[..k])
            + if run[k].Here? then Inputs(After(w.stream, Arrivals(run[..k])), w, run[k].arrival) else [run[k].input]
  {
    hide Inputs, After, Arrivals;
    assert run[..k + 1][..k] == run[..k];
  }

  lemma HeaderFits(whole: bytes, n: nat, m: nat)
    requires IsStream(whole, n, m)
    ensures n + m <= |whole|
  {
  }

  lemma EstablishInputs(e: Early, w: Who)
    ensures Inputs(e, w, Arrival.SessionEstablished) == [InEstablish(w.session)]
  {
  }

  lemma EarliestSchedule(w: Who, whole: bytes, n: nat, m: nat)
    requires IsStreamOf(w, whole, n, m) && |whole| <= S.MAX_BUFFERED_STREAM_BYTES
    ensures Schedule([], whole, n, m) && Schedule([Chunk(whole, true)], whole, n, m)
    ensures Schedule([Chunk(whole, true), SettingsArrive], whole, n, m)
    ensures Schedule([Chunk(whole, true), SettingsArrive, Arrival.SessionEstablished], whole, n, m)
    ensures Finished([Chunk(whole, true)]) && Finished([Chunk(whole, true), SettingsArrive, Arrival.SessionEstablished])
  {
    hide IsStream, V.Decode;
    var a1, a2, a3 := [Chunk(whole, true)], [Chunk(whole, true), SettingsArrive],
        [Chunk(whole, true), SettingsArrive, Arrival.SessionEstablished];
    assert a1[..0] == [] && a2[..1] == a1 && a3[..2] == a2 && [] + whole == whole;
    assert a1[0].fin && a3[0].fin;
    assert Schedule([], whole, n, m);
    assert NextChunk([], whole, true, whole) && RoomFor([], whole, n, m);
    assert Schedule(a1, whole, n, m);
    assert Schedule(a2, whole, n, m);
  }

  /** The connection with the stream waiting. */
  function WaitingConn(w: Who, payload: bytes, fin: bool): Conn {
    Conn(Role.Server, map[w.session := S.NEW.(order := [w.stream],
                                              entries := map[w.stream := S.Entry(w.isBidi, payload, fin)])],
         {}, map[w.stream := Registration(w.session, w.isBidi)], None, [])
  }

  lemma EarliestConns(w: Who, payload: bytes)
    requires |payload| <= S.MAX_BUFFERED_STREAM_BYTES && w.stream % 4 in {0, 2}
    ensures var c := Fresh(Role.Server, None); var joins := JoinInputs(w, payload, true);
      && HandleAll(c, PLAIN, []) == c && HandleAll(c, PLAIN, joins) == WaitingConn(w, payload, true)
      && HandleAll(c, PLAIN, joins + [InConnect(w.session)]) == WaitingConn(w, payload, true)
      && HandleAll(c, PLAIN, EarliestInputs(w, payload)) == K.Establish(WaitingConn(w, payload, true), w.session, PLAIN)
  {
    hide HandleAll, K.Establish, NewStream, StreamData;
    var c, joins := Fresh(Role.Server, None), JoinInputs(w, payload, true);
    HandleFew(c, PLAIN, w, payload, true, InConnect(w.session));
    EarliestJoin(w, payload);
    HandleSnoc(c, PLAIN, joins, InConnect(w.session));
    HandleSnoc(c, PLAIN, joins + [InConnect(w.session)], InEstablish(w.session));
    assert EarliestInputs(w, payload) == joins + [InConnect(w.session)] + [InEstablish(w.session)];
  }

  lemma EarliestJoin(w: Who, payload: bytes)
    requires |payload| <= S.MAX_BUFFERED_STREAM_BYTES && w.stream % 4 in {0, 2}
    ensures StreamData(NewStream(Fresh(Role.Server, None), w.stream, w.session, w.isBidi, payload), w.stream, [], true)
         == WaitingConn(w, payload, true)
  {
    hide NewStream, StreamData;
    EarliestNew(w, payload);
    EarliestEnd(w, payload);
  }

  lemma EarliestNew(w: Who, payload: bytes)
    requires |payload| <= S.MAX_BUFFERED_STREAM_BYTES
    ensures NewStream(Fresh(Role.Server, None), w.stream, w.session, w.isBidi, payload)
        == WaitingConn(w, payload, false)
  {
    hide Hold, PendingCount;
    var c := Fresh(Role.Server, None).(streams := map[w.stream := Registration(w.session, w.isBidi)]);
    NobodyPending(c);
    assert Fresh(Role.Server, None).streams[w.stream := Registration(w.session, w.isBidi)] == c.streams;
    var none: map<nat, S.Entry> := map[];
    var nobody: map<nat, S.Session> := map[];
    assert none[w.stream := S.Entry(w.isBidi, [], false)] == map[w.stream := S.Entry(w.isBidi, [], false)];
    assert S.NEW.order + [w.stream] == [w.stream];
    var first := S.NEW.(order := [w.stream], entries := map[w.stream := S.Entry(w.isBidi, [], false)]);
    assert S.BufferStream(S.NEW, w.stream, w.isBidi) == Some(first);
    assert nobody[w.session := first] == map[w.session := first];
    EarliestHold(w, payload);
  }

  lemma Overwrite<T>(k: nat, a: T, b: T)
    ensures map[k := a][k := b] == map[k := b]
  {
  }

  lemma NobodyPending(c: Conn)
    ensures c.sessions.Keys == {} ==> PendingCount(c) == 0
  {
    var pending := set x | x in c.sessions && c.sessions[x].phase.Pending?;
    assert pending <= c.sessions.Keys;
  }

  lemma EarliestHold(w: Who, payload: bytes)
    requires |payload| <= S.MAX_BUFFERED_STREAM_BYTES
    ensures Hold(WaitingConn(w, [], false), w.session, w.stream, payload) == WaitingConn(w, payload, false)
  {
    assert [] + payload == payload;
    var a, b := S.Entry(w.isBidi, [], false), S.Entry(w.isBidi, payload, false);
    Overwrite(w.stream, a, b);
    var s := S.NEW.(order := [w.stream], entries := map[w.stream := a]);
    Overwrite(w.session, s, s.(entries := map[w.stream := b]));
  }

  lemma EarliestEnd(w: Who, payload: bytes)
    requires w.stream % 4 in {0, 2}
    ensures StreamData(WaitingConn(w, payload, false), w.stream, [], true) == WaitingConn(w, payload, true)
  {
    var a, b := S.Entry(w.isBidi, payload, false), S.Entry(w.isBidi, payload, true);
    Overwrite(w.stream, a, b);
    var s := S.NEW.(order := [w.stream], entries := map[w.stream := a]);
    Overwrite(w.session, s, s.(entries := map[w.stream := b]));
  }

  /** Without flow control nothing can be violated. */
  lemma EarliestEstablish(w: Who, payload: bytes)
    ensures var d := K.Establish(WaitingConn(w, payload, true), w.session, PLAIN);
      && w.session in d.sessions && d.sessions[w.session].phase.Established? && !Refused(d.events, w)
  {
    hide S.EventsOf, S.Untrack, Datagrams;
    var s := Start(WaitingConn(w, payload, true).sessions[w.session], PLAIN).(order := []);
    var stream, entry, t := w.stream, s.entries[w.stream], S.DropEntry(s, w.stream);
    D.DeliveredScope(t, stream, entry);
    assert [stream][1..] == [];
    assert S.DeliverFrom(S.DeliveredSession(t, stream, entry), [])
        == S.Delivery(S.DeliveredSession(t, stream, entry), [], [], false);
  }

  lemma EarliestFlags(w: Who, whole: bytes, n: nat, m: nat, k: nat)
    requires IsStreamOf(w, whole, n, m) && |whole| <= S.MAX_BUFFERED_STREAM_BYTES && k <= 4
    ensures var e := After(w.stream, Arrivals(EarliestRun(w, whole)[..k]));
      (e.established <==> k == 4) && (k <= 1 ==> !e.registered)
  {
    hide IsStream, V.Decode, After, Finished, Octets, Schedule;
    var run := EarliestRun(w, whole);
    EarliestArrivals(w, whole);
    EarliestSchedule(w, whole, n, m);
    ShapeAfter(w.stream, Arrivals(run[..k]), whole, n, m);
    assert k == 4 ==> run[..k] == run;
  }

  lemma EarliestAlive(w: Who, whole: bytes, n: nat, m: nat, k: nat)
    requires IsStreamOf(w, whole, n, m) && |whole| <= S.MAX_BUFFERED_STREAM_BYTES && k <= 4
    ensures var run := EarliestRun(w, whole)[..k];
      Alive(After(w.stream, Arrivals(run)), ServerAfter(None, PLAIN, w, run), w)
  {
    hide IsStream, After, HandleAll, JoinInputs, K.Establish, AllInputs, Arrivals;
    var run := EarliestRun(w, whole);
    HeaderFits(whole, n, m);
    EarliestFlags(w, whole, n, m, k);
    EarliestAllInputs(w, whole, n, m);
    EarliestConns(w, whole[n + m..]);
    EarliestEstablish(w, whole[n + m..]);
    assert k == 4 ==> run[..k] == run;
  }

  /** The premises of `InvisibleInCompany` can be met, for every session and every payload that
      may wait, with the whole stream ahead of everything else. */
  lemma EarliestRunIsFine(session: V.varint, stream: nat, payload: bytes)
    requires session % 4 == 0 && stream % 4 == 0 && |payload| <= S.MAX_BUFFERED_STREAM_BYTES - 10
    ensures var w, whole := Who(stream, session, true), V.Encode(SIGNAL) + V.Encode(session) + payload;
      var run := EarliestRun(w, whole);
      && IsStreamOf(w, whole, 2, V.Length(session)) && Schedule(Arrivals(run), whole, 2, V.Length(session))
      && Undisturbed(None, PLAIN, w, run) && C.LawfulRun(Fresh(Role.Server, None), PLAIN, AllInputs(w, run))
      && Finished(Arrivals(run)) && SettingsArrive in Arrivals(run) && Arrival.SessionEstablished in Arrivals(run)
  {
    hide IsStream, V.Decode, V.Encode, Alive, Schedule, Finished, C.Lawful, HandleAll, Arrivals, AllInputs, JoinInputs;
    var w, whole := Who(stream, session, true), V.Encode(SIGNAL) + V.Encode(session) + payload;
    var run, n, m := EarliestRun(w, whole), 2, V.Length(session);
    WrittenStream(session, payload);
    SessionOf(w, payload);
    EarliestArrivals(w, whole);
    EarliestSchedule(w, whole, n, m);
    EarliestAllInputs(w, whole, n, m);
    EarliestLawful(w, whole[n + m..]);
    forall k: nat | k <= 4
      ensures Alive(After(w.stream, Arrivals(run[..k])), ServerAfter(None, PLAIN, w, run[..k]), w)
    {
      EarliestAlive(w, whole, n, m, k);
    }
    assert run[..4] == run && run[..4][..3] == run[..3] && run[..3][..2] == run[..2] && run[..2][..1] == run[..1]
        && run[..1][..0] == run[..0];
    assert Undisturbed(None, PLAIN, w, run[..0]);
    assert Undisturbed(None, PLAIN, w, run[..1]);
    assert Undisturbed(None, PLAIN, w, run[..2]);
    assert Undisturbed(None, PLAIN, w, run[..3]);
    assert Undisturbed(None, PLAIN, w, run[..4]);
  }

  lemma SessionOf(w: Who, payload: bytes)
    requires w.session <= V.MAX
    ensures var whole := V.Encode(SIGNAL) + V.Encode(w.session) + payload;
      |V.Encode(SIGNAL)| == 2 && V.Decode(whole[2..]).Some? && V.Decode(whole[2..]).value.0 == w.session
  {
    hide V.Decode, V.BigEndian;
    V.RoundTrip(w.session, payload);
    assert (V.Encode(SIGNAL) + V.Encode(w.session) + payload)[2..] == V.Encode(w.session) + payload;
  }

  lemma EarliestLawful(w: Who, payload: bytes)
    ensures C.LawfulRun(Fresh(Role.Server, None), PLAIN, EarliestInputs(w, payload))
  {
    hide Handle;
    var inputs := EarliestInputs(w, payload);
    assert inputs[..0] == [];
    assert C.Lawful(Fresh(Role.Server, None), inputs[0]);
  }
}
