/** The WebTransport side of a connection: sessions, their streams, and what the application
    is told, over any sequence of inputs. */
module WtConnection {
  import opened Bytes
  import opened WtWindows
  import V = VarInts
  import S = WtSession

  const MAX_PENDING_SESSIONS: nat := 16

  datatype Role = Client | Server

  datatype Event =
    | SessionEstablished(session: nat)
    | SessionDraining(session: nat)
    | SessionClosed(session: nat, associated: set<nat>, buffered: seq<nat>)
    | StreamEvent(session: nat, event: S.Event)
    | StreamReset(session: nat, stream: nat, finalSize: nat)
    | Rejected(stream: nat, sessionGone: bool)
    | Datagram(session: nat, payload: bytes)

  /** A WebTransport stream whose header has been read, or that was opened locally. */
  datatype Registration = Registration(session: nat, isBidi: bool)

  datatype Conn = Conn(
    role: Role,
    sessions: map<nat, S.Session>,
    closed: set<nat>,                  // tombstones
    streams: map<nat, Registration>,
    goaway: Option<nat>,
    events: seq<Event>
  )

  /** What the two SETTINGS frames fix for every session. */
  datatype Setup = Setup(flowControl: bool, maxUni: nat, maxBidi: nat, maxData: nat, queueCapsules: bool)

  // ---- Stream identifiers -----------------------------------------------------

  predicate IsLocalBidi(role: Role, stream: nat) {
    stream % 4 == if role.Client? then 0 else 1
  }

  predicate IsLocalUni(role: Role, stream: nat) {
    stream % 4 == if role.Client? then 2 else 3
  }

  /** The octets in front of a stream's payload: signal value or stream type, and session id. */
  function HeaderLength(r: Registration): nat {
    V.Length(if r.isBidi then 0x41 else 0x54) + if r.session <= V.MAX then V.Length(r.session) else 8
  }

  // ---- Building blocks ----------------------------------------------------------

  function Put(c: Conn, id: nat, s: S.Session): Conn {
    c.(sessions := c.sessions[id := s])
  }

  function Emit(c: Conn, events: seq<Event>): Conn {
    c.(events := c.events + events)
  }

  function Unregister(c: Conn, gone: set<nat>): Conn {
    c.(streams := map x | x in c.streams && x !in gone :: c.streams[x])
  }

  function Bury(c: Conn, id: nat): Conn {
    c.(sessions := map x | x in c.sessions && x != id :: c.sessions[x], closed := c.closed + {id})
  }

  function Wrap(id: nat, events: seq<S.Event>): (r: seq<Event>)
    ensures |r| == |events| && forall i :: 0 <= i < |r| ==> r[i] == StreamEvent(id, events[i])
  {
    seq(|events|, i requires 0 <= i < |events| => StreamEvent(id, events[i]))
  }

  /** `terminate_wt_session_with`: every associated stream and every stream that still waits
      is listed for a reset; the session is gone for good. */
  function Terminate(c: Conn, id: nat): Conn {
    if id !in c.sessions then c
    else
      var s := c.sessions[id];
      Bury(Emit(Unregister(c, s.associated), [SessionClosed(id, s.associated, s.order)]), id)
  }

  function PendingCount(c: Conn): nat {
    |set x | x in c.sessions && c.sessions[x].phase.Pending?|
  }

  datatype Outcome = Joined | Buffered | Overflow | Gone

  /** `associate_or_buffer_stream` */
  function Associate(c: Conn, stream: nat, id: nat, isBidi: bool): (Conn, Outcome) {
    if id in c.sessions then
      var s := c.sessions[id];
      match s.phase
      case Established => (Put(c, id, s.(associated := s.associated + {stream})), Joined)
      case Pending =>
        var b := S.BufferStream(s, stream, isBidi);
        if b.Some? then (Put(c, id, b.value), Buffered) else (c, Overflow)
      case _ => (c, Gone)
    else if c.role.Client? || id in c.closed || (c.goaway.Some? && id >= c.goaway.value) then (c, Gone)
    else if PendingCount(c) >= MAX_PENDING_SESSIONS then (c, Overflow)
    else (Put(c, id, S.BufferStream(S.NEW, stream, isBidi).value), Buffered)
  }

  /** Accounts `data` against the session and hands it over, or ends the session. */
  function Accept(c: Conn, id: nat, stream: nat, isBidi: bool, data: bytes): Conn {
    if data == [] then c
    else if id !in c.sessions then Emit(c, [StreamEvent(id, S.Data(isBidi, stream, data))])
    else if !S.CheckReceivedData(c.sessions[id], |data|) then Terminate(c, id)
    else Emit(Put(c, id, S.AddAndTrack(c.sessions[id], stream, |data|)),
              [StreamEvent(id, S.Data(isBidi, stream, data))])
  }

  /** Early data of a waiting stream, or its rejection when it is too much. */
  function Hold(c: Conn, id: nat, stream: nat, data: bytes): Conn
    requires id in c.sessions
  {
    if data == [] then c
    else
      var s := S.AppendData(c.sessions[id], stream, data);
      if s.Some? then Put(c, id, s.value)
      else Emit(Unregister(Put(c, id, S.DropEntry(c.sessions[id], stream)), {stream}), [Rejected(stream, false)])
  }

  // ---- Inputs -------------------------------------------------------------------

  /** The peer's stream whose header has just been completed, with the payload that came
      along: `resolve_wt_bidi_stream_header` and its unidirectional twin. */
  function NewStream(c: Conn, stream: nat, id: nat, isBidi: bool, payload: bytes): Conn {
    var (d, outcome) := Associate(c.(streams := c.streams[stream := Registration(id, isBidi)]), stream, id, isBidi);
    match outcome
    case Gone => Emit(Unregister(d, {stream}), [Rejected(stream, true)])
    case Overflow => Emit(Unregister(d, {stream}), [Rejected(stream, false)])
    case Buffered => if id in d.sessions then Hold(d, id, stream, payload) else d
    case Joined =>
      if id !in d.sessions then d
      else if !S.CheckReceivedStream(d.sessions[id], isBidi) then Terminate(Unregister(d, {stream}), id)
      else
        Accept(Emit(Put(d, id, S.AddReceivedStream(d.sessions[id], isBidi)), [StreamEvent(id, S.Open(isBidi, stream))]),
               id, stream, isBidi, payload)
  }

  /** A unidirectional stream that ends in the chunk that completes its type, its session
      identifier in the same chunk: the end is reported at once, pending session or not, and no
      place is freed. `handle_new_unidirectional_stream` does so by itself. */
  function OneChunk(c: Conn, stream: nat, id: nat, payload: bytes): Conn {
    var d := NewStream(c, stream, id, false, payload);
    if stream in d.streams then Emit(Unregister(d, {stream}), [StreamEvent(id, S.End(false, stream))]) else d
  }

  /** More octets, or the end, of a registered stream: `handle_wt_bidi_stream` and its
      unidirectional twins. */
  function StreamData(c: Conn, stream: nat, data: bytes, fin: bool): Conn {
    if stream !in c.streams || IsLocalUni(c.role, stream) then c
    else
      var r := c.streams[stream];
      if r.session in c.sessions && c.sessions[r.session].phase.Pending? then
        var d := Hold(c, r.session, stream, data);
        if fin && stream in d.streams && r.session in d.sessions
        then Put(d, r.session, S.MarkFin(d.sessions[r.session], stream)) else d
      else
        var d := Accept(c, r.session, stream, r.isBidi, data);
        var refused := data != [] && r.session in c.sessions && !S.CheckReceivedData(c.sessions[r.session], |data|);
        if !fin || stream !in d.streams || (refused && r.isBidi) then d
        else Emit(EndStream(d, r.session, stream, r.isBidi), [StreamEvent(r.session, S.End(r.isBidi, stream))])
  }

  /** The peer's streams are forgotten at their end, local ones stay for the reset size. */
  function EndStream(c: Conn, id: nat, stream: nat, isBidi: bool): Conn {
    if IsLocalBidi(c.role, stream) then c
    else
      var d := Unregister(c, {stream});
      if id in d.sessions then Put(d, id, S.Untrack(S.OnRemoteStreamClosed(d.sessions[id], isBidi), stream)) else d
  }

  /** What a reset adds to the account of a stream: the octets that were sent but never
      arrived as data. */
  function Residual(c: Conn, stream: nat, finalSize: nat): nat
    requires stream in c.streams
  {
    var r := c.streams[stream];
    var header := if IsLocalBidi(c.role, stream) then 0 else HeaderLength(r);
    var accounted := if r.session in c.sessions then S.Accounted(c.sessions[r.session], stream) else 0;
    Minus(Minus(finalSize, header), accounted)
  }

  predicate Waits(c: Conn, stream: nat) {
    exists id :: id in c.sessions && stream in c.sessions[id].entries
  }

  /** The entry of an early stream is dropped; no two sessions have one. */
  function Forget(c: Conn, stream: nat): Conn {
    c.(sessions := map id | id in c.sessions :: ForgetIn(c.sessions[id], stream))
  }

  function ForgetIn(s: S.Session, stream: nat): S.Session {
    if stream in s.entries then S.DropEntry(s, stream).(order := Filter(s.order, stream)) else s
  }

  /** `handle_wt_stream_reset` */
  function Reset(c: Conn, stream: nat, finalSize: nat): Conn {
    if stream in c.sessions then Terminate(c, stream)
    else if stream in c.closed then c
    else if Waits(c, stream) then Forget(c, stream)
    else if stream !in c.streams || IsLocalUni(c.role, stream) then c
    else
      var r := c.streams[stream];
      if r.session in c.sessions && !S.CheckReceivedData(c.sessions[r.session], Residual(c, stream, finalSize)) then
        Terminate(c, r.session)
      else
        var n := Residual(c, stream, finalSize);
        var d := if r.session in c.sessions
            then Put(c, r.session, ResetSession(c.sessions[r.session], c.role, stream, r.isBidi, n)) else c;
        Emit(Unregister(d, {stream}), [StreamReset(r.session, stream, finalSize)])
  }

  /** The residual is received and consumed at once; a stream of the peer frees its place. */
  function ResetSession(s: S.Session, role: Role, stream: nat, isBidi: bool, n: nat): S.Session {
    var consumed := S.OnDataConsumed(S.AddReceivedData(s, n), n);
    var freed := if IsLocalBidi(role, stream) then consumed else S.OnRemoteStreamClosed(consumed, isBidi);
    S.Untrack(freed, stream).(associated := freed.associated - {stream})
  }

  function Filter(ids: seq<nat>, x: nat): (r: seq<nat>)
    ensures x !in r && forall y :: y != x ==> (y in r <==> y in ids)
  {
    if ids == [] then []
    else
      var rest := Filter(ids[..|ids| - 1], x);
      assert ids == ids[..|ids| - 1] + [ids[|ids| - 1]];
      if ids[|ids| - 1] == x then rest else rest + [ids[|ids| - 1]]
  }

  /** `register_wt_connect_session`; early arrivals may have created the session. */
  function RegisterConnect(c: Conn, id: nat): Conn {
    if id in c.sessions then c else Put(c, id, S.NEW)
  }

  /** A CONNECT request on stream `id`. The stream of a closed session is refused before anything
      is read from it: `handle_bidirectional_stream` looks at the tombstones first. */
  function Connect(c: Conn, id: nat): Conn {
    if id in c.closed then c else RegisterConnect(c, id)
  }

  /** A success response, sent or received: the session is established and whatever waited for
      it is delivered. */
  function Establish(c: Conn, id: nat, setup: Setup): Conn {
    if id !in c.sessions || !c.sessions[id].phase.Pending? then c
    else
      var d := S.Deliver(Start(c.sessions[id], setup));
      var e := Unregister(Emit(Put(c, id, d.session), [SessionEstablished(id)] + Wrap(id, d.events)),
                          ClosedIds(d.closed));
      if d.violation then Terminate(e, id)
      else Emit(Put(e, id, d.session.(datagrams := [])), Datagrams(id, d.session.datagrams))
  }

  function Start(s: S.Session, setup: Setup): S.Session {
    var on := setup.flowControl;
    s.(phase := S.Established,
       windows := if on then Some(S.Windows(NewStreams(setup.maxUni), NewStreams(setup.maxBidi),
                                            NewData(setup.maxData))) else s.windows,
       capsules := s.capsules
         + (if on && setup.queueCapsules && setup.maxBidi > 0 then [S.MaxStreams(true, setup.maxBidi)] else [])
         + (if on && setup.queueCapsules && setup.maxUni > 0 then [S.MaxStreams(false, setup.maxUni)] else [])
         + (if on && setup.queueCapsules && setup.maxData > 0 then [S.MaxData(setup.maxData)] else []))
  }

  function ClosedIds(closed: seq<(nat, bool)>): set<nat> {
    set i | 0 <= i < |closed| :: closed[i].0
  }

  function Datagrams(id: nat, payloads: seq<bytes>): (r: seq<Event>)
    ensures |r| == |payloads| && forall i :: 0 <= i < |r| ==> r[i] == Datagram(id, payloads[i])
  {
    seq(|payloads|, i requires 0 <= i < |payloads| => Datagram(id, payloads[i]))
  }

  /** A failure response, or the end of the CONNECT stream before any response. */
  function Refuse(c: Conn, id: nat): Conn {
    if id in c.sessions && c.sessions[id].phase.Pending? then Bury(c, id) else c
  }

  /** The end of the CONNECT stream. */
  function ConnectEnded(c: Conn, id: nat): Conn {
    if id in c.sessions && c.sessions[id].phase.Pending? then Bury(c, id) else Terminate(c, id)
  }

  function Drain(c: Conn, id: nat): Conn {
    if id in c.sessions && (c.sessions[id].phase.Established? || c.sessions[id].phase.Pending?)
    then Emit(Put(c, id, c.sessions[id].(phase := S.Draining)), [SessionDraining(id)]) else c
  }

  /** `register_local_wt_stream`: refused unless the stream is local and new and the session
      is established. */
  function RegisterLocal(c: Conn, stream: nat, id: nat): Conn {
    if !(IsLocalBidi(c.role, stream) || IsLocalUni(c.role, stream)) || stream in c.streams then c
    else if id !in c.sessions || !c.sessions[id].phase.Established? then c
    else Put(c, id, c.sessions[id].(associated := c.sessions[id].associated + {stream}))
           .(streams := c.streams[stream := Registration(id, IsLocalBidi(c.role, stream))])
  }

  /** `feed_datagram` */
  function FeedDatagram(c: Conn, id: nat, payload: bytes): Conn {
    if id in c.sessions then
      match c.sessions[id].phase
      case Pending => Put(c, id, S.BufferDatagram(c.sessions[id], payload))
      case Closed => c
      case _ => Emit(c, [Datagram(id, payload)])
    else if id in c.closed || c.role.Client? || (c.goaway.Some? && id >= c.goaway.value)
            || PendingCount(c) >= MAX_PENDING_SESSIONS then c
    else Put(c, id, S.BufferDatagram(S.NEW, payload))
  }

  function Consumed(c: Conn, id: nat, n: nat): Conn {
    if id in c.sessions then Put(c, id, S.OnDataConsumed(c.sessions[id], n)) else c
  }

  datatype Input =
    | InNewStream(stream: nat, session: nat, isBidi: bool, payload: bytes)
    | InOneChunk(stream: nat, session: nat, payload: bytes)
    | InStreamData(stream: nat, data: bytes, fin: bool)
    | InReset(stream: nat, finalSize: nat)
    | InConnect(session: nat)
    | InEstablish(session: nat)
    | InRefuse(session: nat)
    | InConnectEnded(session: nat)
    | InDrain(session: nat)
    | InClose(session: nat)
    | InRegisterLocal(stream: nat, session: nat)
    | InDatagram(session: nat, payload: bytes)
    | InConsumed(session: nat, n: nat)

  function Handle(c: Conn, setup: Setup, input: Input): Conn {
    match input
    case InNewStream(stream, session, isBidi, payload) => NewStream(c, stream, session, isBidi, payload)
    case InOneChunk(stream, session, payload) => OneChunk(c, stream, session, payload)
    case InStreamData(stream, data, fin) => StreamData(c, stream, data, fin)
    case InReset(stream, finalSize) => Reset(c, stream, finalSize)
    case InConnect(session) => Connect(c, session)
    case InEstablish(session) => Establish(c, session, setup)
    case InRefuse(session) => Refuse(c, session)
    case InConnectEnded(session) => ConnectEnded(c, session)
    case InDrain(session) => Drain(c, session)
    case InClose(session) => Terminate(c, session)
    case InRegisterLocal(stream, session) => RegisterLocal(c, stream, session)
    case InDatagram(session, payload) => FeedDatagram(c, session, payload)
    case InConsumed(session, n) => Consumed(c, session, n)
  }

  function HandleAll(c: Conn, setup: Setup, inputs: seq<Input>): Conn {
    if inputs == [] then c else Handle(HandleAll(c, setup, inputs[..|inputs| - 1]), setup, inputs[|inputs| - 1])
  }

  function Fresh(role: Role, goaway: Option<nat>): Conn {
    Conn(role, map[], {}, map[], goaway, [])
  }
}
