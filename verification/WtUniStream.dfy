/** Early arrival is invisible for a unidirectional stream too, in a whole connection, unless it
    ends in the chunk that completes its type. */
module WtUniStream {
  import opened Bytes
  import opened WtEarlyStream
  import opened WtTransparency
  import opened WtConnection
  import opened WtStreamView
  import opened WtBystanders
  import opened WtInterleaving
  import K = WtConnection
  import A = WtAccounting
  import C = WtConservation
  import V = VarInts
  import S = WtSession

  const TYPE: nat := 0x54

  // ---- In front of the connection -------------------------------------------------------------

  /** What has come of the header: the type is incomplete, the session identifier is, or neither.
      A stream is lost when it is not a WebTransport stream, comes before SETTINGS, or ends too
      early. */
  datatype Front = Typing(buf: bytes) | Naming(buf: bytes) | Named | Lost

  /** `resolve_wt_uni_stream_session_id` */
  function Resolve(w: Who, buf: bytes): (Front, seq<Input>) {
    if buf == [] then (Naming([]), [])
    else
      match V.Decode(buf)
      case None => (Naming(buf), [])
      case Some((session, m)) =>
        if session % 4 != 0 then (Lost, []) else (Named, [InNewStream(w.stream, session, false, buf[m..])])
  }

  /** `handle_unidirectional_stream`, for a stream that is not lost: its type first. */
  function Take(f: Front, w: Who, negotiated: bool, data: bytes, fin: bool): (Front, seq<Input>) {
    match f
    case Lost => (Lost, [])
    case Named => (Named, [InStreamData(w.stream, data, fin)])
    case Naming(buf) =>
      if data == [] then (if fin then Lost else f, [])
      else
        var (g, inputs) := Resolve(w, buf + data);
        if !fin then (g, inputs)
        else if g.Named? then (g, inputs + [InStreamData(w.stream, [], true)])
        else (Lost, [])
    case Typing(buf) =>
      if data == [] then (if fin then Lost else f, [])
      else
        match V.Decode(buf + data)
        case None => (if fin then Lost else Typing(buf + data), [])
        case Some((kind, n)) =>
          if kind != TYPE || !negotiated then (Lost, [])
          else
            var (g, inputs) := Resolve(w, (buf + data)[n..]);
            if !fin then (g, inputs)
            else if inputs != [] && inputs[0].InNewStream? then
              (Lost, [InOneChunk(w.stream, inputs[0].session, inputs[0].payload)])
            else (Lost, [])
  }

  function Arrive(f: Front, w: Who, negotiated: bool, a: Arrival): (Front, seq<Input>) {
    match a
    case Chunk(data, fin) => Take(f, w, negotiated, data, fin)
    case SettingsArrive => (f, [])
    case SessionEstablished => (f, [InEstablish(w.session)])
  }

  function FrontAfter(w: Who, arrivals: seq<Arrival>): Front {
    if arrivals == [] then Typing([])
    else
      var before := arrivals[..|arrivals| - 1];
      Arrive(FrontAfter(w, before), w, SettingsArrive in before, arrivals[|arrivals| - 1]).0
  }

  function UniInputs(w: Who, run: seq<Happening>): seq<Input> {
    if run == [] then []
    else
      var before, last := run[..|run| - 1], run[|run| - 1];
      var arrivals := Arrivals(before);
      UniInputs(w, before)
      + if last.Here? then Arrive(FrontAfter(w, arrivals), w, SettingsArrive in arrivals, last.arrival).1
          else [last.input]
  }

  function UniServer(goaway: Option<nat>, setup: Setup, w: Who, run: seq<Happening>): Conn {
    HandleAll(Fresh(Role.Server, goaway), setup, UniInputs(w, run))
  }

  /** The octets of a whole stream of the client: type, session id, payload. */
  ghost predicate IsUniStream(w: Who, whole: bytes, n: nat, m: nat) {
    && !w.isBidi && w.stream % 4 == 2
    && V.Decode(whole) == Some((TYPE, n)) && n <= |whole|
    && V.Decode(whole[n..]) == Some((w.session, m)) && w.session % 4 == 0 && n + m <= |whole|
  }

  /** A schedule of the stream: the chunk that completes the type comes after SETTINGS, and is
      not the last. */
  ghost predicate UniSchedule(arrivals: seq<Arrival>, whole: bytes, n: nat) {
    arrivals == [] ||
    (var before, last := arrivals[..|arrivals| - 1], arrivals[|arrivals| - 1];
     && UniSchedule(before, whole, n)
     && match last
        case Chunk(data, fin) =>
          && NextChunk(before, data, fin, whole)
          && (|Octets(before)| < n <= |Octets(before)| + |data| ==> SettingsArrive in before && !fin)
        case SettingsArrive => SettingsArrive !in before
        case SessionEstablished => SettingsArrive in before && Arrival.SessionEstablished !in before)
  }

  // ---- The front follows the octets --------------------------------------------------------------

  function FrontOf(part: bytes, n: nat, m: nat): Front {
    if |part| < n then Typing(part) else if |part| < n + m then Naming(part[n..]) else Named
  }

  lemma UniDecodes(w: Who, whole: bytes, part: bytes, n: nat, m: nat)
    requires IsUniStream(w, whole, n, m) && part <= whole
    ensures n >= 1 && m >= 1
    ensures |part| < n ==> V.Decode(part).None?
    ensures |part| >= n ==> V.Decode(part) == Some((TYPE, n))
    ensures n <= |part| < n + m ==> V.Decode(part[n..]).None?
    ensures |part| >= n + m ==> V.Decode(part[n..]) == Some((w.session, m))
  {
    hide V.FromBigEndian;
    PrefixDecodes(whole, part);
    if |part| >= n {
      assert part[n..] <= whole[n..];
      PrefixDecodes(whole[n..], part[n..]);
    }
  }

  /** A prefix is read as the whole, or is too short. */
  lemma PrefixDecodes(whole: bytes, part: bytes)
    requires V.Decode(whole).Some? && part <= whole
    ensures var n := V.Decode(whole).value.1;
      n >= 1 && V.Decode(part) == if |part| < n then None else V.Decode(whole)
  {
    hide V.FromBigEndian;
    var n := V.Decode(whole).value.1;
    if |part| >= n {
      assert part[..n] == whole[..n];
    }
    assert part != [] ==> part[0] == whole[0];
  }

  /** One chunk: what the front becomes, and what the connection hears. */
  lemma TakeIs(w: Who, part: bytes, negotiated: bool, data: bytes, fin: bool, whole: bytes, n: nat, m: nat)
    requires IsUniStream(w, whole, n, m) && part + data <= whole && (fin ==> part + data == whole)
    requires |part| < n <= |part| + |data| ==> negotiated && !fin
    ensures Take(FrontOf(part, n, m), w, negotiated, data, fin)
         == (FrontOf(part + data, n, m),
             if |part| >= n + m then [InStreamData(w.stream, data, fin)]
             else if |part + data| >= n + m then JoinInputs(w, (part + data)[n + m..], fin)
             else [])
  {
    hide V.Decode, IsUniStream;
    var buf := part + data;
    HasHeader(w, whole, n, m);
    UniDecodes(w, whole, part, n, m);
    UniDecodes(w, whole, buf, n, m);
    assert data == [] ==> buf == part;
    if |buf| >= n {
      ResolveIs(w, buf, whole, n, m);
      assert |part| >= n ==> buf[n..] == part[n..] + data;
      if |buf| >= n + m {
        var first := InNewStream(w.stream, w.session, false, buf[n + m..]);
        assert JoinInputs(w, buf[n + m..], false) == [first];
      }
    }
  }

  lemma HasHeader(w: Who, whole: bytes, n: nat, m: nat)
    requires IsUniStream(w, whole, n, m)
    ensures n + m <= |whole| && !w.isBidi
  {
  }

  lemma ResolveIs(w: Who, buf: bytes, whole: bytes, n: nat, m: nat)
    requires IsUniStream(w, whole, n, m) && buf <= whole && |buf| >= n
    ensures Resolve(w, buf[n..])
         == (FrontOf(buf, n, m), if |buf| >= n + m then [InNewStream(w.stream, w.session, false, buf[n + m..])] else [])
  {
    hide V.Decode;
    UniDecodes(w, whole, buf, n, m);
    assert |buf| >= n + m ==> buf[n..][m..] == buf[n + m..];
  }

  lemma {:induction false} FrontFollows(w: Who, arrivals: seq<Arrival>, whole: bytes, n: nat, m: nat)
    requires IsUniStream(w, whole, n, m) && UniSchedule(arrivals, whole, n)
    ensures FrontAfter(w, arrivals) == FrontOf(Octets(arrivals), n, m)
    ensures Octets(arrivals) <= whole && (Finished(arrivals) ==> Octets(arrivals) == whole)
    ensures Arrival.SessionEstablished in arrivals ==> SettingsArrive in arrivals
    ensures |Octets(arrivals)| >= n ==> SettingsArrive in arrivals
    decreases |arrivals|
  {
    hide IsUniStream, Finished, Take, FrontOf;
    if arrivals == [] {
      StartsTyping(w, whole, n, m);
    } else {
      var before, last := arrivals[..|arrivals| - 1], arrivals[|arrivals| - 1];
      FrontFollows(w, before, whole, n, m);
      FinishedSnoc(arrivals);
      assert arrivals == before + [last];
      OctetsSnoc(before, last);
      if last.Chunk? {
        TakeIs(w, Octets(before), SettingsArrive in before, last.data, last.fin, whole, n, m);
      }
    }
  }

  lemma StartsTyping(w: Who, whole: bytes, n: nat, m: nat)
    requires IsUniStream(w, whole, n, m)
    ensures FrontOf([], n, m) == Typing([]) && !Finished([]) && n >= 1
  {
    UniDecodes(w, whole, [], n, m);
  }

  // ---- All runs --------------------------------------------------------------------------------------

  /** The stream has not been refused, and its session is not gone once it matters. */
  ghost predicate UniAlive(c: Conn, w: Who, joined: bool, established: bool) {
    && !Refused(c.events, w) && Phased(c, w, established) && (joined || established ==> w.session in c.sessions)
  }

  predicate HasJoined(arrivals: seq<Arrival>, head: nat) {
    SettingsArrive in arrivals && |Octets(arrivals)| >= head
  }

  /** Whatever else happens, the stream is not refused and its session goes on. */
  ghost predicate UniUndisturbed(goaway: Option<nat>, setup: Setup, w: Who, run: seq<Happening>, head: nat) {
    && UniAlive(UniServer(goaway, setup, w, run), w, HasJoined(Arrivals(run), head),
                Arrival.SessionEstablished in Arrivals(run))
    && (run == [] ||
        (var before, last := run[..|run| - 1], run[|run| - 1];
         UniUndisturbed(goaway, setup, w, before, head) && (last.Elsewhere? ==> Foreign(last.input, w))))
  }

  lemma UniPeer(c: Conn, w: Who, whole: bytes, n: nat, m: nat)
    requires c.role.Server? && IsUniStream(w, whole, n, m)
    ensures Peer(c, w)
  {
  }

  /** What the connection holds of the stream, by its arrivals. */
  ghost predicate ShapeBy(c: Conn, w: Who, arrivals: seq<Arrival>, head: nat) {
    ConnShape(c, w, Octets(arrivals), Finished(arrivals), HasJoined(arrivals, head),
              Arrival.SessionEstablished in arrivals, head)
  }

  /** One arrival of the stream itself. */
  lemma UniArrival(setup: Setup, w: Who, was: seq<Arrival>, a: Arrival, c: Conn, whole: bytes, n: nat, m: nat)
    requires var d := HandleAll(c, setup, Arrive(FrontAfter(w, was), w, SettingsArrive in was, a).1);
      && IsUniStream(w, whole, n, m) && UniSchedule(was + [a], whole, n)
      && Peer(c, w) && A.SessionInv(c, w.session)
      && UniAlive(c, w, HasJoined(was, n + m), Arrival.SessionEstablished in was)
      && UniAlive(d, w, HasJoined(was + [a], n + m), Arrival.SessionEstablished in was + [a])
      && ShapeBy(c, w, was, n + m)
    ensures ShapeBy(HandleAll(c, setup, Arrive(FrontAfter(w, was), w, SettingsArrive in was, a).1), w, was + [a], n + m)
  {
    hide IsUniStream, ConnShape, Finished, Take, HandleAll, Octets, FrontAfter, FrontOf, A.SessionInv, Peer, Refused,
        UniSchedule,
         JoinInputs, NextChunk, K.Establish;
    var now, part := was + [a], Octets(was);
    ScheduleLastUni(was, a, whole, n);
    FrontFollows(w, was, whole, n, m);
    FrontFollows(w, now, whole, n, m);
    assert now[..|was|] == was;
    FinishedSnoc(now);
    OctetsSnoc(was, a);
    match a {
      case Chunk(data, fin) =>
        TakeIs(w, part, SettingsArrive in was, data, fin, whole, n, m);
        UniChunk(c, setup, w, part, data, fin, SettingsArrive in was, Arrival.SessionEstablished in was, n + m);
      case SettingsArrive =>
        HandleFew(c, setup, w, [], false, InClose(0));
        UniSettings(c, w, was, n, m);
      case SessionEstablished =>
        HandleFew(c, setup, w, [], false, InEstablish(w.session));
        NeedsSession(c, w.session, setup);
        EstablishStep(c, setup, w, part, Finished(was), HasJoined(was, n + m), n + m);
    }
  }

  lemma ScheduleLastUni(before: seq<Arrival>, a: Arrival, whole: bytes, n: nat)
    requires UniSchedule(before + [a], whole, n)
    ensures UniSchedule(before, whole, n)
    ensures a.Chunk? ==> NextChunk(before, a.data, a.fin, whole)
    ensures a.Chunk? && |Octets(before)| < n <= |Octets(before)| + |a.data| ==> SettingsArrive in before && !a.fin
    ensures a.SettingsArrive? ==> SettingsArrive !in before
    ensures a.SessionEstablished? ==> SettingsArrive in before && Arrival.SessionEstablished !in before
  {
    assert (before + [a])[..|before|] == before;
  }

  /** SETTINGS change nothing: no stream has joined before them. */
  lemma UniSettings(c: Conn, w: Who, was: seq<Arrival>, n: nat, m: nat)
    requires SettingsArrive !in was && (|Octets(was)| >= n ==> SettingsArrive in was)
    requires ConnShape(c, w, Octets(was), Finished(was), false, Arrival.SessionEstablished in was, n + m)
    ensures !HasJoined(was + [SettingsArrive], n + m)
  {
    OctetsSnoc(was, SettingsArrive);
  }

  lemma UniChunk(c: Conn, setup: Setup, w: Who, part: bytes, data: bytes, fin: bool, negotiated: bool,
                 established: bool, head: nat)
    requires Peer(c, w) && ConnShape(c, w, part, false, negotiated && |part| >= head, established, head)
    requires |part + data| >= head ==> negotiated
    requires UniAlive(c, w, negotiated && |part| >= head, established)
    requires var inputs := if |part| >= head then [InStreamData(w.stream, data, fin)]
                           else if |part + data| >= head then JoinInputs(w, (part + data)[head..], fin) else [];
      UniAlive(HandleAll(c, setup, inputs), w, negotiated && |part + data| >= head, established)
    ensures var inputs := if |part| >= head then [InStreamData(w.stream, data, fin)]
                          else if |part + data| >= head then JoinInputs(w, (part + data)[head..], fin) else [];
      ConnShape(HandleAll(c, setup, inputs), w, part + data, fin, negotiated
                && |part + data| >= head, established, head)
  {
    hide ConnShape, HandleAll, Refused, Peer, JoinInputs, Handle, StreamData;
    HandleFew(c, setup, w, [], fin, InStreamData(w.stream, data, fin));
    if |part| >= head {
      IsData(c, setup, w, data, fin);
      StreamDataStep(c, w, part, data, fin, established, head);
    } else if |part + data| >= head {
      JoinArrival(c, setup, w, part, part + data, fin, established, head);
    } else {
      NotJoined(c, w, part, part + data, false, fin, established, head);
    }
  }

  lemma IsData(c: Conn, setup: Setup, w: Who, data: bytes, fin: bool)
    ensures Handle(c, setup, InStreamData(w.stream, data, fin)) == StreamData(c, w.stream, data, fin)
  {
    hide StreamData;
  }

  /** Something else. */
  lemma UniElsewhere(setup: Setup, w: Who, was: seq<Arrival>, input: Input, c: Conn, head: nat)
    requires Foreign(input, w) && (forall x: nat :: A.SessionInv(c, x)) && ShapeBy(c, w, was, head)
    requires UniAlive(c, w, HasJoined(was, head), Arrival.SessionEstablished in was)
    requires UniAlive(Handle(c, setup, input), w, HasJoined(was, head), Arrival.SessionEstablished in was)
    ensures ShapeBy(Handle(c, setup, input), w, was, head)
  {
    hide ConnShape, Finished, HandleAll, Handle, Octets, A.SessionInv, Foreign, Refused;
    ForeignStep(c, setup, input, w, Octets(was), Finished(was), HasJoined(was, head), Arrival.SessionEstablished in was,
                head);
  }

  lemma UniFresh(goaway: Option<nat>, setup: Setup, w: Who, head: nat)
    ensures ShapeBy(UniServer(goaway, setup, w, []), w, [], head)
  {
  }

  lemma UniRole(goaway: Option<nat>, setup: Setup, w: Who, run: seq<Happening>)
    ensures UniServer(goaway, setup, w, run).role.Server?
  {
    hide HandleAll;
    C.SameRole(Role.Server, goaway, setup, UniInputs(w, run));
  }

  lemma {:induction false} UniShapeAfter(goaway: Option<nat>, setup: Setup, w: Who, run: seq<Happening>, whole: bytes,
                                         n: nat, m: nat)
    requires IsUniStream(w, whole, n, m) && UniSchedule(Arrivals(run), whole, n)
    requires UniUndisturbed(goaway, setup, w, run, n + m)
    requires C.LawfulRun(Fresh(Role.Server, goaway), setup, UniInputs(w, run))
    ensures ShapeBy(UniServer(goaway, setup, w, run), w, Arrivals(run), n + m)
    decreases |run|
  {
    hide IsUniStream, ShapeBy, UniSchedule, C.LawfulRun, Arrive, HandleAll, Handle, UniAlive, Foreign, FrontAfter,
        A.SessionInv,
         HasJoined;
    if run == [] {
      UniFresh(goaway, setup, w, n + m);
    } else {
      var before, last := run[..|run| - 1], run[|run| - 1];
      var c, was := UniServer(goaway, setup, w, before), Arrivals(before);
      var inputs := UniInputs(w, before);
      var now := if last.Here? then Arrive(FrontAfter(w, was), w, SettingsArrive in was, last.arrival).1
          else [last.input];
      assert run == before + [last];
      if last.Here? {
        ScheduleLastUni(was, last.arrival, whole, n);
      }
      LawfulPrefix(Fresh(Role.Server, goaway), setup, inputs, now);
      HandleConcat(Fresh(Role.Server, goaway), setup, inputs, now);
      UniShapeAfter(goaway, setup, w, before, whole, n, m);
      UniRole(goaway, setup, w, before);
      forall x: nat
        ensures A.SessionInv(c, x)
      {
        C.BooksOverRuns(Role.Server, goaway, setup, inputs, x);
      }
      if last.Here? {
        UniPeer(c, w, whole, n, m);
        UniArrival(setup, w, was, last.arrival, c, whole, n, m);
      } else {
        HandleFew(c, setup, w, [], false, last.input);
        UniElsewhere(setup, w, was, last.input, c, n + m);
      }
    }
  }

  /** Transparency of a unidirectional stream in a whole connection: unless it ends in the chunk
      that completes its type, and as long as it is not refused and its session goes on, its
      events are one opening, its payload and one end, and the ledger charges it its payload,
      however it was cut and whatever came early or in between. */
  lemma UniInvisibleInCompany(goaway: Option<nat>, setup: Setup, w: Who, run: seq<Happening>, whole: bytes, n: nat,
                              m: nat)
    requires IsUniStream(w, whole, n, m) && UniSchedule(Arrivals(run), whole, n)
    requires UniUndisturbed(goaway, setup, w, run, n + m)
    requires C.LawfulRun(Fresh(Role.Server, goaway), setup, UniInputs(w, run))
    requires Finished(Arrivals(run)) && Arrival.SessionEstablished in Arrivals(run)
    ensures var c := UniServer(goaway, setup, w, run);
      && SeenOf(Mine(c.events, w), w.stream, false) == Ended(whole[n + m..])
      && A.Charge(Role.Server, w.session, w.stream, c.events) == |whole| - n - m
      && Openings(Mine(c.events, w)) == Endings(Mine(c.events, w)) == 1
      && w.stream !in c.streams
  {
    hide UniUndisturbed, UniSchedule, C.LawfulRun, UniServer, A.Charge, Mine, SeenOf, Finished, Octets, Arrivals,
        FrontAfter;
    UniShapeAfter(goaway, setup, w, run, whole, n, m);
    FrontFollows(w, Arrivals(run), whole, n, m);
    SeenCounts(Mine(UniServer(goaway, setup, w, run).events, w), w.stream, false);
  }
}
