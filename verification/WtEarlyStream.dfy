/** One bidirectional WebTransport stream of a client at a server, from its first octet on:
    it may arrive before SETTINGS, before its header is complete, and before its session is
    established, and waits in a different place each time. */
module WtEarlyStream {
  import opened Bytes
  import V = VarInts
  import S = WtSession

  const SIGNAL: nat := 0x41

  /** What the stream has been charged to its session: octets, its opening, its end. */
  datatype Charges = Charges(octets: nat, opens: nat, closes: nat)

  const NOTHING: Charges := Charges(0, 0, 0)

  /** What the connection holds about the stream and its session. */
  datatype Early = Early(
    negotiated: bool,                 // SETTINGS have arrived and agree on WebTransport
    established: bool,                // the session has been established
    dispatch: Option<bytes>,          // octets in front of a complete first integer
    beforeSettings: Option<(bytes, bool)>,
    header: Option<bytes>,            // octets in front of a complete header
    registered: bool,
    entry: Option<S.Entry>,           // what waits for the session
    charges: Charges,
    events: seq<S.Event>,
    failed: bool                      // refused, or not a WebTransport stream
  )

  const START: Early := Early(false, false, None, None, None, false, None, NOTHING, [], false)

  function Or(pending: Option<bytes>): bytes {
    if pending.Some? then pending.value else []
  }

  /** `feed_stream`, for a stream that the client opened. */
  function Feed(e: Early, stream: nat, data: bytes, fin: bool): Early {
    if e.registered || e.header.Some? then HandleBidi(e, stream, data, fin)
    else if e.dispatch.Some? then Dispatch(e, stream, data, fin)
    else if e.beforeSettings.Some? then KeepBeforeSettings(e, data, fin)
    else Dispatch(e, stream, data, fin)
  }

  /** `dispatch_client_bidi_stream`: the first integer tells a WebTransport stream from a request. */
  function Dispatch(e: Early, stream: nat, data: bytes, fin: bool): Early {
    var buf := Or(e.dispatch) + data;
    if buf == [] then e.(dispatch := if fin then None else Some([]), failed := e.failed || fin)
    else if buf[0] < 64 then e.(dispatch := None, failed := true)
    else
      match V.Decode(buf)
      case None => e.(dispatch := if fin then None else Some(buf), failed := e.failed || fin)
      case Some((value, _)) =>
        var d := e.(dispatch := None);
        if value != SIGNAL then d.(failed := true)
        else if e.negotiated then HandleBidi(d, stream, buf, fin)
        else KeepBeforeSettings(d, buf, fin)
  }

  /** `buffer_pre_negotiation_wt_bidi` */
  function KeepBeforeSettings(e: Early, data: bytes, fin: bool): Early {
    var (held, ended) := if e.beforeSettings.Some? then e.beforeSettings.value else ([], false);
    if |held| + |data| > S.MAX_BUFFERED_STREAM_BYTES then e.(beforeSettings := None, failed := true)
    else e.(beforeSettings := Some((held + data, ended || fin)))
  }

  /** `handle_wt_bidi_stream` */
  function HandleBidi(e: Early, stream: nat, data: bytes, fin: bool): Early {
    if e.registered then
      if !e.established then
        var h := Append(e, data);
        if fin && !h.failed then MarkFin(h) else h
      else
        var d := Give(e, stream, data);
        if fin then EndOf(d, stream) else d
    else
      var d := ResolveHeader(e, stream, data);
      if !fin then d
      else if d.registered then (if !e.established then MarkFin(d) else EndOf(d, stream)).(header := None)
      else d.(header := None)
  }

  function Append(e: Early, data: bytes): Early {
    if data == [] then e
    else if e.entry.None? || |e.entry.value.data| + |data| > S.MAX_BUFFERED_STREAM_BYTES then
      e.(registered := false, entry := None, failed := true)
    else e.(entry := Some(e.entry.value.(data := e.entry.value.data + data)))
  }

  function MarkFin(e: Early): Early {
    if e.entry.None? then e else e.(entry := Some(e.entry.value.(fin := true)))
  }

  function Give(e: Early, stream: nat, data: bytes): Early {
    if data == [] then e
    else e.(charges := e.charges.(octets := e.charges.octets + |data|),
            events := e.events + [S.Data(true, stream, data)])
  }

  function EndOf(e: Early, stream: nat): Early {
    e.(registered := false, charges := e.charges.(closes := e.charges.closes + 1),
       events := e.events + [S.End(true, stream)])
  }

  /** `resolve_wt_bidi_stream_header` */
  function ResolveHeader(e: Early, stream: nat, data: bytes): Early {
    var buf := Or(e.header) + data;
    if buf == [] then e.(header := Some([]))
    else
      match V.Decode(buf)
      case None => e.(header := Some(buf))
      case Some((signal, n)) =>
        if signal != SIGNAL then e.(failed := true)
        else
          match V.Decode(buf[n..])
          case None => e.(header := Some(buf))
          case Some((session, m)) =>
            if session % 4 != 0 then e.(failed := true)
            else Join(e.(header := None, registered := true), stream, buf[n..][m..])
  }

  /** The stream meets its session, with the payload that came along. */
  function Join(e: Early, stream: nat, payload: bytes): Early {
    if e.established then
      Give(e.(charges := e.charges.(opens := e.charges.opens + 1), events := e.events + [S.Open(true, stream)]), stream,
           payload)
    else Append(e.(entry := Some(S.Entry(true, [], false))), payload)
  }

  /** SETTINGS arrive: what was kept goes the way it would have gone at once. */
  function Negotiate(e: Early, stream: nat): Early {
    var d := e.(negotiated := true, beforeSettings := None);
    if e.beforeSettings.None? then d else HandleBidi(d, stream, e.beforeSettings.value.0, e.beforeSettings.value.1)
  }

  /** The session is established: the entry is delivered. */
  function Establish(e: Early, stream: nat): Early {
    var d := e.(established := true, entry := None);
    if e.entry.None? then d
    else
      d.(charges := Charges(e.charges.octets + |e.entry.value.data|, e.charges.opens + 1,
                            e.charges.closes + if e.entry.value.fin then 1 else 0),
         events := e.events + S.EventsOf(stream, e.entry.value),
         registered := e.registered && !e.entry.value.fin)
  }

  // ---- What the application sees -----------------------------------------------------

  datatype Seen = Nothing | Running(payload: bytes) | Ended(payload: bytes) | Wrong

  function See(seen: Seen, stream: nat, isBidi: bool, e: S.Event): Seen {
    match e
    case Open(b, x) => if seen.Nothing? && b == isBidi && x == stream then Running([]) else Wrong
    case Data(b, x, data) =>
      if seen.Running? && b == isBidi && x == stream && data != [] then Running(seen.payload + data) else Wrong
    case End(b, x) => if seen.Running? && b == isBidi && x == stream then Ended(seen.payload) else Wrong
  }

  function SeenOf(events: seq<S.Event>, stream: nat, isBidi: bool): Seen {
    if events == [] then Nothing
    else See(SeenOf(events[..|events| - 1], stream, isBidi), stream, isBidi, events[|events| - 1])
  }

  lemma SeenSnoc(events: seq<S.Event>, e: S.Event, stream: nat, isBidi: bool)
    ensures SeenOf(events + [e], stream, isBidi) == See(SeenOf(events, stream, isBidi), stream, isBidi, e)
  {
    assert (events + [e])[..|events|] == events;
  }

  function Openings(events: seq<S.Event>): nat {
    if events == [] then 0 else Openings(events[..|events| - 1]) + if events[|events| - 1].Open? then 1 else 0
  }

  function Endings(events: seq<S.Event>): nat {
    if events == [] then 0 else Endings(events[..|events| - 1]) + if events[|events| - 1].End? then 1 else 0
  }

  /** A stream seen to its end was opened once and ended once. */
  lemma {:induction false} SeenCounts(events: seq<S.Event>, stream: nat, isBidi: bool)
    ensures match SeenOf(events, stream, isBidi)
      case Nothing => Openings(events) == Endings(events) == 0
      case Running(_) => Openings(events) == 1 && Endings(events) == 0
      case Ended(_) => Openings(events) == Endings(events) == 1
      case Wrong => true
    decreases |events|
  {
    if events != [] {
      SeenCounts(events[..|events| - 1], stream, isBidi);
    }
  }

  // ---- The shape of the state after any part of the stream ------------------------------

  /** The octets of a whole stream: signal, session id, payload. */
  predicate IsStream(whole: bytes, n: nat, m: nat) {
    && V.Decode(whole).Some? && V.Decode(whole).value == (SIGNAL, n) && n <= |whole|
    && V.Decode(whole[n..]).Some? && V.Decode(whole[n..]).value.1 == m && V.Decode(whole[n..]).value.0 % 4 == 0
    && n + m <= |whole|
  }

  /** What may wait: before SETTINGS the header counts against the limit, before the session
      is established only the payload does, and then nothing waits. */
  predicate Room(length: nat, negotiated: bool, established: bool, n: nat, m: nat) {
    established || length <= 65536 + if negotiated then n + m else 0
  }

  /** After the octets `part` of the stream, and its end if `fin`, whatever chunks they came
      in and whenever SETTINGS and the session came. `n` octets of signal and `m` of session
      id are the header. */
  ghost predicate Shape(e: Early, stream: nat, part: bytes, fin: bool, n: nat, m: nat) {
    && !e.failed && (e.established ==> e.negotiated) && Room(|part|, e.negotiated, e.established, n, m)
    && if V.Decode(part).None? then
         e == Early(e.negotiated, e.established, e.dispatch, None, None, false, None, NOTHING, [], false)
         && Or(e.dispatch) == part && !fin
       else if !e.negotiated then
         e == Early(false, false, None, Some((part, fin)), None, false, None, NOTHING, [], false)
       else if |part| < n + m then
         e == Early(true, e.established, None, None, Some(part), false, None, NOTHING, [], false) && !fin
       else if !e.established then
         e == Early(true, false, None, None, None, true, Some(S.Entry(true, part[n + m..], fin)), NOTHING, [], false)
       else
         e == Early(true, true, None, None, None, !fin, None, Charges(|part| - n - m, 1, if fin then 1 else 0),
                    e.events, false)
         && SeenOf(e.events, stream, true) == if fin then Ended(part[n + m..]) else Running(part[n + m..])
  }

  /** The parser sees of a part of the stream what it sees of the whole, or nothing yet. */
  lemma PartDecodes(whole: bytes, part: bytes, n: nat, m: nat)
    requires IsStream(whole, n, m) && part <= whole
    ensures V.Decode(part).Some? ==> V.Decode(part) == V.Decode(whole) && n <= |part|
    ensures V.Decode(part).Some? ==> V.Decode(part[n..]).Some? == (|part| >= n + m)
    ensures V.Decode(part).Some? && |part| >= n + m ==> V.Decode(part[n..]) == V.Decode(whole[n..])
    ensures |part| >= n ==> V.Decode(part).Some?
    ensures part != [] ==> part[0] >= 64
    ensures n >= 1 && m >= 1
  {
    hide V.FromBigEndian;
    var more := whole[|part|..];
    assert whole == part + more;
    if V.Decode(part).Some? {
      V.Stable(part, more);
      assert whole[n..] == part[n..] + more;
      if V.Decode(part[n..]).Some? {
        V.Stable(part[n..], more);
      }
    }
    assert part != [] ==> part[0] == whole[0];
    assert |part| > n ==> part[n..][0] == whole[n..][0];
    OneOctetIsSmall(whole);
  }

  lemma OneOctetIsSmall(buf: bytes)
    ensures V.Decode(buf).Some? && buf[0] < 64 ==> V.Decode(buf).value.0 < 64
  {
    hide V.FromBigEndian;
  }
}
