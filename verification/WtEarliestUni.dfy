/** The premises of transparency can be met for unidirectional streams too: a run in which a
    stream comes ahead of the CONNECT request of its session and of the response. */
module WtEarliestUni {
  import opened Bytes
  import opened WtEarlyStream
  import opened WtTransparency
  import opened WtConnection
  import opened WtStreamView
  import opened WtInterleaving
  import opened WtUniStream
  import opened WtEarliestRun
  import K = WtConnection
  import C = WtConservation
  import V = VarInts
  import S = WtSession

  /** SETTINGS, the whole stream, its end, the CONNECT request, the response. */
  function UniRun(w: Who, whole: bytes): seq<Happening> {
    [Here(SettingsArrive), Here(Chunk(whole, false)), Here(Chunk([], true)), Elsewhere(InConnect(w.session)),
     Here(Arrival.SessionEstablished)]
  }

  function UniArrivals(whole: bytes): seq<Arrival> {
    [SettingsArrive, Chunk(whole, false), Chunk([], true), Arrival.SessionEstablished]
  }

  lemma Prefixes(w: Who, whole: bytes)
    ensures var run := UniRun(w, whole);
      && run[..5] == run && run[..5][..4] == run[..4] && run[..4][..3] == run[..3] && run[..3][..2] == run[..2]
      && run[..2][..1] == run[..1] && run[..1][..0] == run[..0] == []
    ensures var all := UniArrivals(whole);
      && all[..4] == all && all[..4][..3] == all[..3] && all[..3][..2] == all[..2]
      && all[..2][..1] == all[..1] && all[..1][..0] == all[..0] == []
  {
  }

  lemma RunArrivals(w: Who, whole: bytes)
    ensures var run, all := UniRun(w, whole), UniArrivals(whole);
      && Arrivals(run[..0]) == all[..0] && Arrivals(run[..1]) == all[..1] && Arrivals(run[..2]) == all[..2]
      && Arrivals(run[..3]) == Arrivals(run[..4]) == all[..3] && Arrivals(run[..5]) == Arrivals(run) == all
  {
    hide UniArrivals, UniRun;
    Prefixes(w, whole);
    var run, all := UniRun(w, whole), UniArrivals(whole);
    RunIs(w, whole);
    assert Arrivals(run[..1]) == all[..0] + [all[0]] == all[..1];
    assert Arrivals(run[..2]) == all[..1] + [all[1]] == all[..2];
    assert Arrivals(run[..3]) == all[..2] + [all[2]] == all[..3];
    assert Arrivals(run[..5]) == all[..3] + [all[3]] == all[..4];
  }

  lemma RunIs(w: Who, whole: bytes)
    ensures var run, all := UniRun(w, whole), UniArrivals(whole);
      && |run| == 5 && |all| == 4 && run[0] == Here(all[0]) && run[1] == Here(all[1]) && run[2] == Here(all[2])
      && run[3] == Elsewhere(InConnect(w.session)) && run[4] == Here(all[3])
      && all[0] == SettingsArrive && all[1] == Chunk(whole, false) && all[2] == Chunk([], true)
      && all[3] == Arrival.SessionEstablished
  {
  }

  lemma UniOctets(whole: bytes)
    ensures var all := UniArrivals(whole);
      && Octets(all[..0]) == Octets(all[..1]) == [] && Octets(all[..2]) == Octets(all[..3]) == Octets(all) == whole
      && !Finished(all[..0]) && !Finished(all[..1]) && !Finished(all[..2]) && Finished(all[..3]) && Finished(all)
  {
    hide Octets, Finished;
    var all := UniArrivals(whole);
    assert all[..1] == [] + [SettingsArrive] && all[..2] == all[..1] + [Chunk(whole, false)];
    assert all[..3] == all[..2] + [Chunk([], true)] && all == all[..3] + [Arrival.SessionEstablished];
    NothingArrived();
    OctetsSnoc([], SettingsArrive);
    OctetsSnoc(all[..1], Chunk(whole, false));
    OctetsSnoc(all[..2], Chunk([], true));
    OctetsSnoc(all[..3], Arrival.SessionEstablished);
    assert [] + whole == whole && whole + [] == whole;
    FinishedSnoc(all[..1]);
    FinishedSnoc(all[..2]);
    FinishedSnoc(all[..3]);
    FinishedSnoc(all);
    assert all[..1][..0] == [] && all[..2][..1] == all[..1] && all[..3][..2] == all[..2]
        && all[..3] == all[..|all| - 1];
  }

  lemma NothingArrived()
    ensures Octets([]) == [] && !Finished([])
  {
  }

  lemma UniIsScheduled(w: Who, whole: bytes, n: nat, m: nat)
    requires IsUniStream(w, whole, n, m)
    ensures var all := UniArrivals(whole);
      UniSchedule(all[..0], whole, n) && UniSchedule(all[..1], whole, n) && UniSchedule(all[..2], whole, n)
      && UniSchedule(all[..3], whole, n) && UniSchedule(all, whole, n)
  {
    hide IsUniStream, Octets, Finished;
    var all := UniArrivals(whole);
    UniOctets(whole);
    UniDecodes(w, whole, [], n, m);
    HasHeader(w, whole, n, m);
    Prefixes(w, whole);
    assert [] + whole == whole && whole + [] == whole;
    assert UniSchedule(all[..0], whole, n);
    assert UniSchedule(all[..1], whole, n);
    assert UniSchedule(all[..2], whole, n);
    assert UniSchedule(all[..3], whole, n);
  }

  lemma InputsSnoc(w: Who, before: seq<Happening>, h: Happening)
    ensures UniInputs(w, before + [h]) == UniInputs(w, before)
      + if h.Here? then Arrive(FrontAfter(w, Arrivals(before)), w, SettingsArrive in Arrivals(before), h.arrival).1
        else [h.input]
  {
    assert (before + [h])[..|before|] == before;
  }

  /** What the connection hears of the two chunks. */
  lemma ChunksHeard(w: Who, whole: bytes, n: nat, m: nat)
    requires IsUniStream(w, whole, n, m)
    ensures n + m <= |whole|
    ensures var all, payload := UniArrivals(whole), whole[n + m..];
      && Take(FrontAfter(w, all[..1]), w, true, whole, false).1 == JoinInputs(w, payload, false)
      && Take(FrontAfter(w, all[..2]), w, true, [], true).1 == [InStreamData(w.stream, [], true)]
  {
    hide IsUniStream, Take, FrontOf, Octets, Finished, UniSchedule, FrontAfter, UniArrivals, JoinInputs;
    HasHeader(w, whole, n, m);
    RunIs(w, whole);
    var all := UniArrivals(whole);
    UniOctets(whole);
    UniIsScheduled(w, whole, n, m);
    FrontFollows(w, all[..1], whole, n, m);
    FrontFollows(w, all[..2], whole, n, m);
    assert [] + whole == whole && whole + [] == whole;
    UniDecodes(w, whole, [], n, m);
    TakeIs(w, [], true, whole, false, whole, n, m);
    TakeIs(w, whole, true, [], true, whole, n, m);
  }

  lemma UniRunInputs(w: Who, whole: bytes, n: nat, m: nat)
    requires IsUniStream(w, whole, n, m) && n + m <= |whole|
    ensures var run, payload := UniRun(w, whole), whole[n + m..];
      && UniInputs(w, run[..0]) == [] && UniInputs(w, run[..1]) == []
      && UniInputs(w, run[..2]) == JoinInputs(w, payload, false)
      && UniInputs(w, run[..3]) == JoinInputs(w, payload, true)
      && UniInputs(w, run[..4]) == JoinInputs(w, payload, true) + [InConnect(w.session)]
      && UniInputs(w, run[..5]) == UniInputs(w, run) == EarliestInputs(w, payload)
  {
    hide IsUniStream, Take, FrontAfter, UniArrivals, Arrivals;
    var run, all, payload := UniRun(w, whole), UniArrivals(whole), whole[n + m..];
    RunArrivals(w, whole);
    ChunksHeard(w, whole, n, m);
    SettingsHeard(whole);
    assert run[..1] == [] + [run[0]] && run[..2] == run[..1] + [run[1]] && run[..3] == run[..2] + [run[2]];
    assert run[..4] == run[..3] + [run[3]] && run[..5] == run == run[..4] + [run[4]];
    InputsSnoc(w, [], run[0]);
    InputsSnoc(w, run[..1], run[1]);
    InputsSnoc(w, run[..2], run[2]);
    InputsSnoc(w, run[..3], run[3]);
    InputsSnoc(w, run[..4], run[4]);
    assert JoinInputs(w, payload, false) + [InStreamData(w.stream, [], true)] == JoinInputs(w, payload, true);
  }

  lemma SettingsHeard(whole: bytes)
    ensures var all := UniArrivals(whole); SettingsArrive in all[..1] && SettingsArrive in all[..2]
  {
    var all := UniArrivals(whole);
    assert all[..1][0] == SettingsArrive && all[..2][0] == SettingsArrive;
  }

  lemma UniConns(w: Who, payload: bytes)
    requires |payload| <= S.MAX_BUFFERED_STREAM_BYTES && w.stream % 4 in {0, 2}
    ensures HandleAll(Fresh(Role.Server, None), PLAIN, JoinInputs(w, payload, false)) == WaitingConn(w, payload, false)
  {
    hide HandleAll, NewStream, StreamData;
    HandleFew(Fresh(Role.Server, None), PLAIN, w, payload, false, InConnect(w.session));
    EarliestNew(w, payload);
  }

  lemma UniFlags(whole: bytes, n: nat, m: nat, k: nat)
    requires n >= 1 && n + m <= |whole| && k <= 5
    ensures var arrivals := Arrivals(UniRun(Who(2, 0, false), whole)[..k]);
      (HasJoined(arrivals, n + m) <==> k >= 2) && (Arrival.SessionEstablished in arrivals <==> k == 5)
  {
    hide Octets, Finished, Arrivals, UniRun;
    var all := UniArrivals(whole);
    RunArrivals(Who(2, 0, false), whole);
    UniOctets(whole);
    assert all[..0] == [] && all[..1] == [SettingsArrive] && all[..2] == [SettingsArrive, Chunk(whole, false)];
    assert all[..3] == [SettingsArrive, Chunk(whole, false), Chunk([], true)];
  }

  /** The arrivals do not depend on whose they are. */
  lemma SameArrivals(w: Who, v: Who, whole: bytes, k: nat)
    requires k <= 5
    ensures Arrivals(UniRun(w, whole)[..k]) == Arrivals(UniRun(v, whole)[..k])
  {
    hide Arrivals, UniRun;
    RunArrivals(w, whole);
    RunArrivals(v, whole);
  }

  lemma UniAliveAt(w: Who, whole: bytes, n: nat, m: nat, k: nat)
    requires IsUniStream(w, whole, n, m) && |whole| <= S.MAX_BUFFERED_STREAM_BYTES && k <= 5
    ensures var run := UniRun(w, whole)[..k];
      UniAlive(UniServer(None, PLAIN, w, run), w, HasJoined(Arrivals(run), n + m),
               Arrival.SessionEstablished in Arrivals(run))
  {
    hide HandleAll, JoinInputs, K.Establish, UniInputs, V.Decode, Arrivals, HasJoined;
    UniDecodes(w, whole, [], n, m);
    UniFlags(whole, n, m, k);
    SameArrivals(w, Who(2, 0, false), whole, k);
    UniRunInputs(w, whole, n, m);
    EarliestConns(w, whole[n + m..]);
    UniConns(w, whole[n + m..]);
    EarliestEstablish(w, whole[n + m..]);
  }

  lemma WrittenUniStream(session: V.varint, stream: nat, payload: bytes)
    requires session % 4 == 0 && stream % 4 == 2
    ensures var whole := V.Encode(TYPE) + V.Encode(session) + payload;
      IsUniStream(Who(stream, session, false), whole, 2, V.Length(session)) && whole[2 + V.Length(session)..] == payload
  {
    hide V.Decode, V.BigEndian;
    var whole := V.Encode(TYPE) + V.Encode(session) + payload;
    V.RoundTrip(TYPE, V.Encode(session) + payload);
    V.RoundTrip(session, payload);
    assert whole == V.Encode(TYPE) + (V.Encode(session) + payload);
    assert whole[2..] == V.Encode(session) + payload;
  }

  /** The premises of `UniInvisibleInCompany` can be met, for every session and every payload that
      may wait. */
  lemma UniRunIsFine(session: V.varint, stream: nat, payload: bytes)
    requires session % 4 == 0 && stream % 4 == 2 && |payload| <= S.MAX_BUFFERED_STREAM_BYTES - 10
    ensures var w, whole := Who(stream, session, false), V.Encode(TYPE) + V.Encode(session) + payload;
      var run := UniRun(w, whole);
      && IsUniStream(w, whole, 2, V.Length(session)) && UniSchedule(Arrivals(run), whole, 2)
      && UniUndisturbed(None, PLAIN, w, run, 2 + V.Length(session))
      && C.LawfulRun(Fresh(Role.Server, None), PLAIN, UniInputs(w, run))
      && Finished(Arrivals(run)) && Arrival.SessionEstablished in Arrivals(run)
  {
    hide V.Decode, V.Encode, UniAlive, UniSchedule, Finished, C.Lawful, HandleAll, Arrivals, UniInputs, JoinInputs,
        HasJoined,
         IsUniStream;
    var w, whole := Who(stream, session, false), V.Encode(TYPE) + V.Encode(session) + payload;
    var run, head := UniRun(w, whole), 2 + V.Length(session);
    WrittenUniStream(session, stream, payload);
    RunArrivals(w, whole);
    UniOctets(whole);
    UniIsScheduled(w, whole, 2, V.Length(session));
    HasHeader(w, whole, 2, V.Length(session));
    UniRunInputs(w, whole, 2, V.Length(session));
    EarliestLawful(w, whole[head..]);
    forall k: nat | k <= 5
      ensures UniAlive(UniServer(None, PLAIN, w, run[..k]), w, HasJoined(Arrivals(run[..k]), head),
                       Arrival.SessionEstablished in Arrivals(run[..k]))
    {
      UniAliveAt(w, whole, 2, V.Length(session), k);
    }
    Prefixes(w, whole);
    assert UniUndisturbed(None, PLAIN, w, run[..0], head);
    assert UniUndisturbed(None, PLAIN, w, run[..1], head);
    assert UniUndisturbed(None, PLAIN, w, run[..2], head);
    assert UniUndisturbed(None, PLAIN, w, run[..3], head);
    assert UniUndisturbed(None, PLAIN, w, run[..4], head);
    assert UniUndisturbed(None, PLAIN, w, run[..5], head);
  }
}
