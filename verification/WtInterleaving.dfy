/** Early arrival is invisible in a whole connection too: between the arrivals of one stream,
    the connection may handle anything else, of any other stream and any other session. */
module WtInterleaving {
  import opened Bytes
  import opened WtEarlyStream
  import opened WtTransparency
  import opened WtConnection
  import opened WtStreamView
  import opened WtBystanders
  import K = WtConnection
  import A = WtAccounting
  import C = WtConservation
  import V = VarInts
  import S = WtSession

  /** Something happens to the stream, or something else to the connection. */
  datatype Happening = Here(arrival: Arrival) | Elsewhere(input: Input)

  // ---- What the holding buffers in front of the connection let through --------------------

  /** A header that may be complete by now. */
  function Resolved(w: Who, buf: bytes, fin: bool): seq<Input> {
    match V.Decode(buf)
    case None => []
    case Some((_, n)) =>
      match V.Decode(buf[n..])
      case None => []
      case Some((session, m)) =>
        [InNewStream(w.stream, session, w.isBidi, buf[n..][m..])] + if fin then [InStreamData(w.stream, [], true)]
            else []
  }

  /** The inputs that one arrival becomes. */
  function Inputs(e: Early, w: Who, a: Arrival): seq<Input> {
    match a
    case SessionEstablished => [InEstablish(w.session)]
    case SettingsArrive =>
      if e.beforeSettings.None? then [] else Resolved(w, e.beforeSettings.value.0, e.beforeSettings.value.1)
    case Chunk(data, fin) =>
      if e.registered then [InStreamData(w.stream, data, fin)]
      else if e.negotiated then Resolved(w, Or(if e.header.Some? then e.header else e.dispatch) + data, fin)
      else []
  }

  function Arrivals(run: seq<Happening>): seq<Arrival> {
    if run == [] then []
    else
      var before, last := Arrivals(run[..|run| - 1]), run[|run| - 1];
      if last.Here? then before + [last.arrival] else before
  }

  function AllInputs(w: Who, run: seq<Happening>): seq<Input> {
    if run == [] then []
    else
      var before, last := run[..|run| - 1], run[|run| - 1];
      AllInputs(w, before)
      + if last.Here? then Inputs(After(w.stream, Arrivals(before)), w, last.arrival) else [last.input]
  }

  function ServerAfter(goaway: Option<nat>, setup: Setup, w: Who, run: seq<Happening>): Conn {
    HandleAll(Fresh(Role.Server, goaway), setup, AllInputs(w, run))
  }

  /** The stream has not been refused, and its session is not gone once it matters. */
  ghost predicate Alive(e: Early, c: Conn, w: Who) {
    && Rejected(w.stream, true) !in c.events && Rejected(w.stream, false) !in c.events
    && (w.session in c.sessions ==> (c.sessions[w.session].phase.Pending? <==> !e.established))
    && (e.registered || e.established ==> w.session in c.sessions)
  }

  /** Whatever else happens, the stream is not refused and its session goes on. */
  ghost predicate Undisturbed(goaway: Option<nat>, setup: Setup, w: Who, run: seq<Happening>) {
    && Alive(After(w.stream, Arrivals(run)), ServerAfter(goaway, setup, w, run), w)
    && (run == [] ||
        (var before, last := run[..|run| - 1], run[|run| - 1];
         Undisturbed(goaway, setup, w, before) && (last.Elsewhere? ==> Foreign(last.input, w))))
  }

  // ---- The arrivals of the stream -------------------------------------------------------------------

  function JoinInputs(w: Who, payload: bytes, fin: bool): seq<Input> {
    [InNewStream(w.stream, w.session, w.isBidi, payload)] + if fin then [InStreamData(w.stream, [], true)] else []
  }

  /** The header belongs to this stream and session. */
  ghost predicate IsStreamOf(w: Who, whole: bytes, n: nat, m: nat) {
    IsStream(whole, n, m) && V.Decode(whole[n..]).value.0 == w.session && w.isBidi && w.stream % 4 == 0
  }

  /** The connection hears of the stream when its header is complete and SETTINGS are there. */
  lemma ChunkInputs(e: Early, w: Who, part: bytes, data: bytes, fin: bool, whole: bytes, n: nat, m: nat)
    requires IsStreamOf(w, whole, n, m) && part + data <= whole && Shape(e, w.stream, part, false, n, m)
    ensures Inputs(e, w, Chunk(data, fin))
         == if e.negotiated && |part| >= n + m then [InStreamData(w.stream, data, fin)]
            else if e.negotiated && |part + data| >= n + m then JoinInputs(w, (part + data)[n + m..], fin)
            else []
  {
    hide V.Decode;
    PartDecodes(whole, part, n, m);
    PartDecodes(whole, part + data, n, m);
    assert |part + data| >= n + m ==> (part + data)[n..][m..] == (part + data)[n + m..];
  }

  lemma SettingsInputs(e: Early, w: Who, part: bytes, fin: bool, whole: bytes, n: nat, m: nat)
    requires IsStreamOf(w, whole, n, m) && part <= whole && Shape(e, w.stream, part, fin, n, m) && !e.negotiated
    ensures Inputs(e, w, SettingsArrive) == if |part| >= n + m then JoinInputs(w, part[n + m..], fin) else []
  {
    hide V.Decode;
    PartDecodes(whole, part, n, m);
    assert |part| >= n + m ==> part[n..][m..] == part[n + m..];
  }

  lemma HandleSnoc(c: Conn, setup: Setup, a: seq<Input>, x: Input)
    ensures HandleAll(c, setup, a + [x]) == Handle(HandleAll(c, setup, a), setup, x)
  {
    assert (a + [x])[..|a|] == a;
  }

  lemma HandleFew(c: Conn, setup: Setup, w: Who, payload: bytes, fin: bool, x: Input)
    ensures HandleAll(c, setup, []) == c && HandleAll(c, setup, [x]) == Handle(c, setup, x)
    ensures HandleAll(c, setup, JoinInputs(w, payload, fin))
         == var d := NewStream(c, w.stream, w.session, w.isBidi, payload); if fin then StreamData(d, w.stream, [], true)
             else d
  {
    hide NewStream, StreamData, Handle;
    var first, last := InNewStream(w.stream, w.session, w.isBidi, payload), InStreamData(w.stream, [], true);
    assert [] + [x] == [x] && [] + [first] == [first];
    HandleSnoc(c, setup, [], x);
    HandleSnoc(c, setup, [], first);
    HandleSnoc(c, setup, [first], last);
    assert Handle(c, setup, first) == NewStream(c, w.stream, w.session, w.isBidi, payload) by {
      HandleCases(c, setup, w, payload);
    }
    HandleCases(HandleAll(c, setup, [first]), setup, w, payload);
  }

  lemma HandleCases(c: Conn, setup: Setup, w: Who, payload: bytes)
    ensures Handle(c, setup, InNewStream(w.stream, w.session, w.isBidi, payload))
        == NewStream(c, w.stream, w.session, w.isBidi, payload)
    ensures Handle(c, setup, InStreamData(w.stream, [], true)) == StreamData(c, w.stream, [], true)
  {
    hide NewStream, StreamData;
  }

  /** The bare end of a stream refuses nothing and ends no session. */
  lemma BareEnd(c: Conn, w: Who, established: bool)
    ensures var d := StreamData(c, w.stream, [], true);
      && (w.session in d.sessions <==> w.session in c.sessions)
      && (Phased(c, w, established) <==> Phased(d, w, established))
      && (Refused(c.events, w) ==> Refused(d.events, w))
  {
    hide S.OnRemoteStreamClosed, S.Untrack;
    if w.stream in c.streams && c.streams[w.stream].session in c.sessions {
      var s := c.sessions[c.streams[w.stream].session];
      EndedPhase(s, c.streams[w.stream].isBidi, w.stream);
    }
  }

  lemma EndedPhase(s: S.Session, isBidi: bool, stream: nat)
    ensures S.Untrack(S.OnRemoteStreamClosed(s, isBidi), stream).phase == s.phase
  {
  }

  lemma JoinArrival(c: Conn, setup: Setup, w: Who, part: bytes, buf: bytes, fin: bool, established: bool, head: nat)
    requires Peer(c, w) && ConnShape(c, w, part, false, false, established, head) && head <= |buf|
    requires var d := HandleAll(c, setup, JoinInputs(w, buf[head..], fin));
      w.session in d.sessions && !Refused(d.events, w) && Phased(d, w, established)
    ensures ConnShape(HandleAll(c, setup, JoinInputs(w, buf[head..], fin)), w, buf, fin, true, established, head)
  {
    hide ConnShape, NewStream, StreamData, HandleAll, Refused;
    HandleFew(c, setup, w, buf[head..], fin, InClose(0));
    BareEnd(NewStream(c, w.stream, w.session, w.isBidi, buf[head..]), w, established);
    JoinStep(c, w, part, buf, fin, established, head);
  }

  /** One arrival of the stream. */
  lemma ChunkStep(e: Early, c: Conn, setup: Setup, w: Who, part: bytes, data: bytes, fin: bool, whole: bytes, n: nat,
                  m: nat)
    requires IsStreamOf(w, whole, n, m) && part + data <= whole && Shape(e, w.stream, part, false, n, m)
    requires Peer(c, w) && Alive(e, c, w)
        && ConnShape(c, w, part, false, e.negotiated && |part| >= n + m, e.established, n + m)
    requires Shape(Feed(e, w.stream, data, fin), w.stream, part + data, fin, n, m)
    requires SameFlags(e, Feed(e, w.stream, data, fin))
    requires Alive(Feed(e, w.stream, data, fin), HandleAll(c, setup, Inputs(e, w, Chunk(data, fin))), w)
    ensures ConnShape(HandleAll(c, setup, Inputs(e, w, Chunk(data, fin))), w, part + data, fin,
                      e.negotiated && |part + data| >= n + m, e.established, n + m)
  {
    hide V.Decode, ConnShape, Inputs, HandleAll, Feed, IsStream;
    ChunkInputs(e, w, part, data, fin, whole, n, m);
    HandleFew(c, setup, w, [], fin, InStreamData(w.stream, data, fin));
    ShapeRegisters(e, w.stream, part, false, whole, n, m);
    ShapeRegisters(Feed(e, w.stream, data, fin), w.stream, part + data, fin, whole, n, m);
    if e.negotiated && |part| >= n + m {
      StreamDataStep(c, w, part, data, fin, e.established, n + m);
    } else if e.negotiated && |part + data| >= n + m {
      JoinArrival(c, setup, w, part, part + data, fin, e.established, n + m);
    } else {
      NotJoined(c, w, part, part + data, false, fin, e.established, n + m);
    }
  }

  lemma NotJoined(c: Conn, w: Who, part: bytes, more: bytes, fin: bool, fin': bool, established: bool, head: nat)
    requires ConnShape(c, w, part, fin, false, established, head)
    ensures ConnShape(c, w, more, fin', false, established, head)
  {
  }

  lemma ShapeRegisters(e: Early, stream: nat, part: bytes, fin: bool, whole: bytes, n: nat, m: nat)
    requires IsStream(whole, n, m) && part <= whole && Shape(e, stream, part, fin, n, m)
    ensures e.negotiated && |part| >= n + m && (e.established ==> !fin) ==> e.registered
  {
    hide V.Decode;
    PartDecodes(whole, part, n, m);
  }

  lemma SettingsStep(e: Early, c: Conn, setup: Setup, w: Who, part: bytes, fin: bool, whole: bytes, n: nat, m: nat)
    requires IsStreamOf(w, whole, n, m) && part <= whole && Shape(e, w.stream, part, fin, n, m) && !e.negotiated
        && !e.established
    requires Peer(c, w) && Alive(e, c, w) && ConnShape(c, w, part, fin, false, e.established, n + m)
    requires Shape(Negotiate(e, w.stream), w.stream, part, fin, n, m)
    requires Negotiate(e, w.stream).negotiated && !Negotiate(e, w.stream).established
    requires Alive(Negotiate(e, w.stream), HandleAll(c, setup, Inputs(e, w, SettingsArrive)), w)
    ensures ConnShape(HandleAll(c, setup, Inputs(e, w, SettingsArrive)), w, part, fin, |part| >= n + m, e.established,
                      n + m)
  {
    hide V.Decode, ConnShape, Inputs, HandleAll, Negotiate, IsStream;
    SettingsInputs(e, w, part, fin, whole, n, m);
    HandleFew(c, setup, w, [], fin, InClose(0));
    ShapeRegisters(Negotiate(e, w.stream), w.stream, part, fin, whole, n, m);
    if |part| >= n + m {
      NotJoined(c, w, part, part, fin, false, false, n + m);
      JoinArrival(c, setup, w, part, part, fin, false, n + m);
    }
  }

  // ---- All runs ----------------------------------------------------------------------------------------

  lemma {:induction false} HandleConcat(c: Conn, setup: Setup, a: seq<Input>, b: seq<Input>)
    ensures HandleAll(c, setup, a + b) == HandleAll(HandleAll(c, setup, a), setup, b)
    decreases |b|
  {
    hide Handle;
    if b == [] {
      assert a + b == a;
    } else {
      var k := |b| - 1;
      HandleConcat(c, setup, a, b[..k]);
      assert a + b == a + b[..k] + [b[k]];
      HandleSnoc(c, setup, a + b[..k], b[k]);
    }
  }

  lemma LawfulPrefix(c: Conn, setup: Setup, a: seq<Input>, b: seq<Input>)
    requires C.LawfulRun(c, setup, a + b)
    ensures C.LawfulRun(c, setup, a)
  {
    hide C.Lawful, HandleAll;
    forall i | 0 <= i < |a|
      ensures C.Lawful(HandleAll(c, setup, a[..i]), a[i])
    {
      assert (a + b)[..i] == a[..i] && (a + b)[i] == a[i];
    }
  }

  /** What the connection holds of the stream depends on what has arrived, and not on how,
      when, or among what else. */
  ghost predicate RunShape(goaway: Option<nat>, setup: Setup, w: Who, run: seq<Happening>, c: Conn, head: nat) {
    var arrivals := Arrivals(run);
    ConnShape(c, w, Octets(arrivals), Finished(arrivals),
              SettingsArrive in arrivals && |Octets(arrivals)| >= head, Arrival.SessionEstablished in arrivals, head)
  }

  lemma FreshShape(goaway: Option<nat>, setup: Setup, w: Who, head: nat)
    ensures RunShape(goaway, setup, w, [], ServerAfter(goaway, setup, w, []), head)
  {
  }

  /** One more arrival of the stream itself. */
  lemma HereStep(goaway: Option<nat>, setup: Setup, w: Who, before: seq<Happening>, a: Arrival, c: Conn, whole: bytes,
                 n: nat, m: nat)
    requires var e := After(w.stream, Arrivals(before));
      var d := HandleAll(c, setup, Inputs(e, w, a));
      && IsStreamOf(w, whole, n, m) && Schedule(Arrivals(before) + [a], whole, n, m)
      && Peer(c, w) && A.SessionInv(c, w.session) && Alive(e, c, w) && Alive(Step(e, w.stream, a), d, w)
      && RunShape(goaway, setup, w, before, c, n + m)
    ensures var d := HandleAll(c, setup, Inputs(After(w.stream, Arrivals(before)), w, a));
      RunShape(goaway, setup, w, before + [Here(a)], d, n + m)
  {
    hide IsStream, ConnShape, Finished, Schedule, After, Inputs, HandleAll, Alive, Octets, Feed, Negotiate,
        WtEarlyStream.Establish,
         A.SessionInv, Shape, Peer;
    var was := Arrivals(before);
    var now := was + [a];
    var e := After(w.stream, was);
    assert now[..|was|] == was && (before + [Here(a)])[..|before|] == before;
    ScheduleLast(was, a, whole, n, m);
    ShapeAfter(w.stream, was, whole, n, m);
    ShapeAfter(w.stream, now, whole, n, m);
    FinishedSnoc(now);
    StepFlags(e, w.stream, a);
    OctetsSnoc(was, a);
    AfterSnoc(w.stream, was, a);
    EstablishedLast(e, w.stream, Octets(was), Finished(was), n, m);
    if a.SessionEstablished? {
      AliveSession(Step(e, w.stream, a), HandleAll(c, setup, Inputs(e, w, a)), w);
    }
    match a {
      case Chunk(data, fin) => ChunkStep(e, c, setup, w, Octets(was), data, fin, whole, n, m);
      case SettingsArrive => SettingsStep(e, c, setup, w, Octets(was), Finished(was), whole, n, m);
      case SessionEstablished => EstablishArrival(e, c, setup, w, Octets(was), Finished(was), |Octets(was)| >= n + m,
                                                  n + m);
    }
  }

  lemma ScheduleLast(before: seq<Arrival>, a: Arrival, whole: bytes, n: nat, m: nat)
    requires Schedule(before + [a], whole, n, m)
    ensures Schedule(before, whole, n, m)
    ensures a.Chunk? ==> NextChunk(before, a.data, a.fin, whole)
    ensures a.SettingsArrive? ==> SettingsArrive !in before
    ensures a.SessionEstablished? ==> SettingsArrive in before && Arrival.SessionEstablished !in before
  {
    assert (before + [a])[..|before|] == before;
  }

  lemma EstablishedLast(e: Early, stream: nat, part: bytes, fin: bool, n: nat, m: nat)
    requires Shape(e, stream, part, fin, n, m)
    ensures e.established ==> e.negotiated
  {
  }

  lemma AliveSession(e: Early, c: Conn, w: Who)
    requires Alive(e, c, w) && e.established
    ensures w.session in c.sessions
  {
  }

  lemma OctetsSnoc(arrivals: seq<Arrival>, a: Arrival)
    ensures Octets(arrivals + [a]) == if a.Chunk? then Octets(arrivals) + a.data else Octets(arrivals)
  {
    assert (arrivals + [a])[..|arrivals|] == arrivals;
  }

  lemma EstablishArrival(e: Early, c: Conn, setup: Setup, w: Who, part: bytes, fin: bool, joined: bool, head: nat)
    requires var d := HandleAll(c, setup, Inputs(e, w, Arrival.SessionEstablished));
      && !e.established && Peer(c, w) && A.SessionInv(c, w.session)
      && Alive(e, c, w) && w.session in d.sessions && ConnShape(c, w, part, fin, joined, false, head)
    ensures ConnShape(HandleAll(c, setup, Inputs(e, w, Arrival.SessionEstablished)), w, part, fin, joined, true, head)
  {
    hide ConnShape, HandleAll, K.Establish, A.SessionInv;
    HandleFew(c, setup, w, [], fin, InEstablish(w.session));
    assert HandleAll(c, setup, [InEstablish(w.session)]) == K.Establish(c, w.session, setup);
    NeedsSession(c, w.session, setup);
    EstablishStep(c, setup, w, part, fin, joined, head);
  }

  lemma NeedsSession(c: Conn, at: nat, setup: Setup)
    ensures at in K.Establish(c, at, setup).sessions ==> at in c.sessions
  {
    hide S.Deliver, Start;
  }

  /** Something else. */
  lemma ElsewhereStep(goaway: Option<nat>, setup: Setup, w: Who, before: seq<Happening>, input: Input, c: Conn,
                      whole: bytes, n: nat, m: nat)
    requires var e := After(w.stream, Arrivals(before));
      && IsStreamOf(w, whole, n, m) && Schedule(Arrivals(before), whole, n, m) && Foreign(input, w)
      && (forall x: nat :: A.SessionInv(c, x)) && Alive(e, c, w) && Alive(e, Handle(c, setup, input), w)
      && RunShape(goaway, setup, w, before, c, n + m)
    ensures RunShape(goaway, setup, w, before + [Elsewhere(input)], Handle(c, setup, input), n + m)
  {
    hide IsStream, ConnShape, Finished, Schedule, HandleAll, Handle, Octets, After, A.SessionInv, Foreign, Shape;
    var was := Arrivals(before);
    assert (before + [Elsewhere(input)])[..|before|] == before;
    ShapeAfter(w.stream, was, whole, n, m);
    ShapeRegisters(After(w.stream, was), w.stream, Octets(was), Finished(was), whole, n, m);
    ForeignStep(c, setup, input, w, Octets(was), Finished(was), SettingsArrive in was && |Octets(was)| >= n + m,
                Arrival.SessionEstablished in was, n + m);
  }

  lemma ServerRole(goaway: Option<nat>, setup: Setup, w: Who, run: seq<Happening>)
    ensures ServerAfter(goaway, setup, w, run).role.Server?
  {
    hide HandleAll;
    C.SameRole(Role.Server, goaway, setup, AllInputs(w, run));
  }

  lemma {:induction false} ConnShapeAfter(goaway: Option<nat>, setup: Setup, w: Who, run: seq<Happening>, whole: bytes,
                                          n: nat, m: nat)
    requires IsStreamOf(w, whole, n, m) && Schedule(Arrivals(run), whole, n, m) && Undisturbed(goaway, setup, w, run)
    requires C.LawfulRun(Fresh(Role.Server, goaway), setup, AllInputs(w, run))
    ensures RunShape(goaway, setup, w, run, ServerAfter(goaway, setup, w, run), n + m)
    decreases |run|
  {
    hide IsStreamOf, RunShape, Schedule, C.LawfulRun, Inputs, HandleAll, Handle, Alive, Foreign, After, A.SessionInv;
    if run == [] {
      FreshShape(goaway, setup, w, n + m);
    } else {
      var before, last := run[..|run| - 1], run[|run| - 1];
      var c := ServerAfter(goaway, setup, w, before);
      var was := AllInputs(w, before);
      var now := if last.Here? then Inputs(After(w.stream, Arrivals(before)), w, last.arrival) else [last.input];
      assert run == before + [last];
      if last.Here? {
        ScheduleLast(Arrivals(before), last.arrival, whole, n, m);
        AfterSnoc(w.stream, Arrivals(before), last.arrival);
      }
      LawfulPrefix(Fresh(Role.Server, goaway), setup, was, now);
      HandleConcat(Fresh(Role.Server, goaway), setup, was, now);
      ConnShapeAfter(goaway, setup, w, before, whole, n, m);
      ServerRole(goaway, setup, w, before);
      forall x: nat
        ensures A.SessionInv(c, x)
      {
        C.BooksOverRuns(Role.Server, goaway, setup, was, x);
      }
      if last.Here? {
        PeerOf(c, w, whole, n, m);
        HereStep(goaway, setup, w, before, last.arrival, c, whole, n, m);
      } else {
        HandleFew(c, setup, w, [], false, last.input);
        ElsewhereStep(goaway, setup, w, before, last.input, c, whole, n, m);
      }
    }
  }

  lemma PeerOf(c: Conn, w: Who, whole: bytes, n: nat, m: nat)
    requires c.role.Server? && IsStreamOf(w, whole, n, m)
    ensures Peer(c, w)
  {
  }

  lemma AfterSnoc(stream: nat, arrivals: seq<Arrival>, a: Arrival)
    ensures After(stream, arrivals + [a]) == Step(After(stream, arrivals), stream, a)
  {
    hide Step;
    assert (arrivals + [a])[..|arrivals|] == arrivals;
  }

  /** Transparency in a whole connection: in any run of a server, in which the stream is not
      refused and its session goes on, the events of the stream are one opening, its payload and
      one end, and the ledger charges it its payload, whatever came early, however it was cut,
      and whatever else the connection handled in between. In the stream credit of the session,
      which `WtCreditRuns.Credit` reads off the events, that is one place taken and given back. */
  lemma InvisibleInCompany(goaway: Option<nat>, setup: Setup, w: Who, run: seq<Happening>, whole: bytes, n: nat, m: nat)
    requires IsStreamOf(w, whole, n, m) && Schedule(Arrivals(run), whole, n, m) && Undisturbed(goaway, setup, w, run)
    requires C.LawfulRun(Fresh(Role.Server, goaway), setup, AllInputs(w, run))
    requires Finished(Arrivals(run)) && SettingsArrive in Arrivals(run) && Arrival.SessionEstablished in Arrivals(run)
    ensures var c := ServerAfter(goaway, setup, w, run);
      && SeenOf(Mine(c.events, w), w.stream, w.isBidi) == Ended(whole[n + m..])
      && A.Charge(Role.Server, w.session, w.stream, c.events) == |whole| - n - m
      && Openings(Mine(c.events, w)) == Endings(Mine(c.events, w)) == 1
      && w.stream !in c.streams
  {
    hide Undisturbed, Schedule, C.LawfulRun, ServerAfter, A.Charge, Mine, SeenOf, Finished, Octets, Arrivals;
    ConnShapeAfter(goaway, setup, w, run, whole, n, m);
    ShapeAfter(w.stream, Arrivals(run), whole, n, m);
    SeenCounts(Mine(ServerAfter(goaway, setup, w, run).events, w), w.stream, w.isBidi);
  }
}
