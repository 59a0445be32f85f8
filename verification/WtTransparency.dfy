/** Early arrival is invisible: however the octets of a stream are cut into chunks, and
    whichever of them come before SETTINGS or before the session is established, the
    application sees the same stream. */
module WtTransparency {
  import opened Bytes
  import opened WtEarlyStream
  import V = VarInts
  import S = WtSession

  /** The header is still incomplete, or is completed by this chunk: `buf` is all that came. */
  lemma ResolveKeeps(e: Early, stream: nat, buf: bytes, fin: bool, whole: bytes, n: nat, m: nat)
    requires IsStream(whole, n, m) && buf <= whole && (fin ==> buf == whole) && V.Decode(buf).Some?
    requires e == Early(true, e.established, None, None, e.header, false, None, NOTHING, [], false)
        && Or(e.header) <= buf
    requires Room(|buf|, true, e.established, n, m)
    ensures Shape(HandleBidi(e, stream, buf[|Or(e.header)|..], fin), stream, buf, fin, n, m)
  {
    hide V.Decode, Append, Give;
    PartDecodes(whole, buf, n, m);
    assert Or(e.header) + buf[|Or(e.header)|..] == buf;
    if |buf| >= n + m {
      assert buf[n..][m..] == buf[n + m..];
      JoinKeeps(e.(header := None, registered := true), stream, buf[n + m..], fin);
    }
  }

  /** Joining a session that is pending, or established, and ending there. */
  lemma JoinKeeps(e: Early, stream: nat, payload: bytes, fin: bool)
    requires e == Early(true, e.established, None, None, None, true, None, NOTHING, [], false)
    requires e.established || |payload| <= S.MAX_BUFFERED_STREAM_BYTES
    ensures var d := Join(e, stream, payload);
      && d.registered && d == Early(true, e.established, None, None, None, true, d.entry, d.charges, d.events, false)
      && (!e.established ==> d.entry == Some(S.Entry(true, payload, false)) && d.charges == NOTHING && d.events == [])
      && (e.established ==>
          d.entry.None? && d.charges == Charges(|payload|, 1, 0) && SeenOf(d.events, stream, true) == Running(payload))
      && (e.established ==> SeenOf(EndOf(d, stream).events, stream, true) == Ended(payload))
  {
    var d := Join(e, stream, payload);
    assert [] + payload == payload;
    if e.established {
      SeenSnoc([], S.Open(true, stream), stream, true);
      assert [] + [S.Open(true, stream)] == [S.Open(true, stream)];
      SeenSnoc([S.Open(true, stream)], S.Data(true, stream, payload), stream, true);
      SeenSnoc(d.events, S.End(true, stream), stream, true);
    }
  }

  /** A chunk of an established stream. */
  lemma GiveKeeps(e: Early, stream: nat, payload: bytes, data: bytes)
    requires SeenOf(e.events, stream, true) == Running(payload)
    ensures SeenOf(Give(e, stream, data).events, stream, true) == Running(payload + data)
    ensures SeenOf(EndOf(Give(e, stream, data), stream).events, stream, true) == Ended(payload + data)
  {
    assert data == [] ==> payload + data == payload;
    SeenSnoc(e.events, S.Data(true, stream, data), stream, true);
    SeenSnoc(Give(e, stream, data).events, S.End(true, stream), stream, true);
  }

  /** One more chunk, with the end of the stream on the last one. */
  lemma FeedKeeps(e: Early, stream: nat, part: bytes, data: bytes, fin: bool, whole: bytes, n: nat, m: nat)
    requires IsStream(whole, n, m) && part + data <= whole && (fin ==> part + data == whole)
    requires Shape(e, stream, part, false, n, m) && Room(|part + data|, e.negotiated, e.established, n, m)
    ensures Shape(Feed(e, stream, data, fin), stream, part + data, fin, n, m)
  {
    hide V.Decode, HandleBidi, Dispatch, KeepBeforeSettings;
    PartDecodes(whole, part, n, m);
    if V.Decode(part).None? {
      DispatchKeeps(e, stream, part, data, fin, whole, n, m);
    } else if !e.negotiated {
      PartDecodes(whole, part + data, n, m);
      HeldKeeps(e, part, data, fin);
    } else if |part| < n + m {
      assert (part + data)[|part|..] == data;
      PartDecodes(whole, part + data, n, m);
      ResolveKeeps(e, stream, part + data, fin, whole, n, m);
    } else {
      PartDecodes(whole, part + data, n, m);
      assert (part + data)[n + m..] == part[n + m..] + data;
      RegisteredKeeps(e, stream, part[n + m..], data, fin);
    }
  }

  lemma HeldKeeps(e: Early, part: bytes, data: bytes, fin: bool)
    requires e.beforeSettings == Some((part, false)) && |part| + |data| <= S.MAX_BUFFERED_STREAM_BYTES
    ensures KeepBeforeSettings(e, data, fin) == e.(beforeSettings := Some((part + data, fin)))
  {
  }

  lemma DispatchKeeps(e: Early, stream: nat, part: bytes, data: bytes, fin: bool, whole: bytes, n: nat, m: nat)
    requires IsStream(whole, n, m) && part + data <= whole && (fin ==> part + data == whole)
    requires Shape(e, stream, part, false, n, m) && V.Decode(part).None?
    requires Room(|part + data|, e.negotiated, e.established, n, m)
    ensures Shape(Dispatch(e, stream, data, fin), stream, part + data, fin, n, m)
  {
    hide V.Decode, HandleBidi;
    var buf := part + data;
    PartDecodes(whole, buf, n, m);
    if V.Decode(buf).Some? {
      var d := e.(dispatch := None);
      if e.negotiated {
        assert buf[0..] == buf;
        ResolveKeeps(d, stream, buf, fin, whole, n, m);
      } else {
        assert [] + buf == buf;
      }
    }
  }

  lemma RegisteredKeeps(e: Early, stream: nat, payload: bytes, data: bytes, fin: bool)
    requires e.registered && !e.failed && (e.established || |payload| + |data| <= S.MAX_BUFFERED_STREAM_BYTES)
    requires !e.established ==> e.entry == Some(S.Entry(true, payload, false))
    requires e.established ==> SeenOf(e.events, stream, true) == Running(payload)
    ensures var d := HandleBidi(e, stream, data, fin);
      && (!e.established ==> d == e.(entry := Some(S.Entry(true, payload + data, fin))))
      && (e.established ==>
            && d == e.(registered := !fin, events := d.events,
                       charges := Charges(e.charges.octets + |data|, e.charges.opens,
                                          e.charges.closes + if fin then 1 else 0))
            && SeenOf(d.events, stream, true) == if fin then Ended(payload + data) else Running(payload + data))
  {
    assert data == [] ==> payload + data == payload;
    if e.established {
      GiveKeeps(e, stream, payload, data);
    }
  }

  /** SETTINGS arrive. */
  lemma NegotiateKeeps(e: Early, stream: nat, part: bytes, fin: bool, whole: bytes, n: nat, m: nat)
    requires IsStream(whole, n, m) && part <= whole && (fin ==> part == whole)
    requires Shape(e, stream, part, fin, n, m) && !e.negotiated
    ensures Shape(Negotiate(e, stream), stream, part, fin, n, m)
  {
    hide V.Decode, HandleBidi;
    if V.Decode(part).Some? {
      assert part[0..] == part;
      ResolveKeeps(e.(negotiated := true, beforeSettings := None), stream, part, fin, whole, n, m);
    }
  }

  /** The session is established. */
  lemma EstablishKeeps(e: Early, stream: nat, part: bytes, fin: bool, whole: bytes, n: nat, m: nat)
    requires IsStream(whole, n, m) && part <= whole && (fin ==> part == whole)
    requires Shape(e, stream, part, fin, n, m) && e.negotiated && !e.established
    ensures Shape(Establish(e, stream), stream, part, fin, n, m)
  {
    hide V.Decode, SeenOf, S.EventsOf;
    PartDecodes(whole, part, n, m);
    if V.Decode(part).Some? && |part| >= n + m {
      DeliveredSeen(stream, S.Entry(true, part[n + m..], fin));
      assert [] + S.EventsOf(stream, e.entry.value) == S.EventsOf(stream, e.entry.value);
    }
  }

  lemma NothingSeen(stream: nat, isBidi: bool)
    ensures SeenOf([], stream, isBidi) == Nothing
  {
  }

  lemma DeliveredSeen(stream: nat, entry: S.Entry)
    ensures SeenOf(S.EventsOf(stream, entry), stream, entry.isBidi) == if entry.fin then Ended(entry.data)
        else Running(entry.data)
  {
    hide SeenOf;
    var e1, e2, e3 := S.Open(entry.isBidi, stream), S.Data(entry.isBidi, stream, entry.data),
        S.End(entry.isBidi, stream);
    NothingSeen(stream, entry.isBidi);
    SeenSnoc([], e1, stream, entry.isBidi);
    assert [] + [e1] == [e1] && [] + entry.data == entry.data;
    SeenSnoc([e1], e2, stream, entry.isBidi);
    assert [e1] + [e2] == [e1, e2];
    SeenSnoc(if entry.data == [] then [e1] else [e1, e2], e3, stream, entry.isBidi);
    var told := if entry.data == [] then [e1] else [e1, e2];
    assert S.EventsOf(stream, entry) == if entry.fin then told + [e3] else told;
  }

  // ---- All schedules ------------------------------------------------------------------------

  datatype Arrival = Chunk(data: bytes, fin: bool) | SettingsArrive | SessionEstablished

  function Step(e: Early, stream: nat, a: Arrival): Early {
    match a
    case Chunk(data, fin) => Feed(e, stream, data, fin)
    case SettingsArrive => Negotiate(e, stream)
    case SessionEstablished => Establish(e, stream)
  }

  function After(stream: nat, arrivals: seq<Arrival>): Early {
    if arrivals == [] then START else Step(After(stream, arrivals[..|arrivals| - 1]), stream, arrivals[|arrivals| - 1])
  }

  /** The octets that have come so far. */
  function Octets(arrivals: seq<Arrival>): bytes {
    if arrivals == [] then []
    else
      var before, last := Octets(arrivals[..|arrivals| - 1]), arrivals[|arrivals| - 1];
      if last.Chunk? then before + last.data else before
  }

  predicate Finished(arrivals: seq<Arrival>) {
    exists i :: 0 <= i < |arrivals| && arrivals[i].Chunk? && arrivals[i].fin
  }

  predicate NextChunk(before: seq<Arrival>, data: bytes, fin: bool, whole: bytes) {
    !Finished(before) && Octets(before) + data <= whole && (fin ==> Octets(before) + data == whole)
  }

  predicate RoomFor(before: seq<Arrival>, data: bytes, n: nat, m: nat) {
    Room(|Octets(before) + data|, SettingsArrive in before, SessionEstablished in before, n, m)
  }

  /** A schedule of the stream `whole`: its octets in order, its end on the chunk that
      completes it and nothing after that; SETTINGS once, and the session once, later. What
      comes early has room to wait. */
  ghost predicate Schedule(arrivals: seq<Arrival>, whole: bytes, n: nat, m: nat) {
    arrivals == [] ||
    (var before, last := arrivals[..|arrivals| - 1], arrivals[|arrivals| - 1];
     && Schedule(before, whole, n, m)
     && match last
        case Chunk(data, fin) => NextChunk(before, data, fin, whole) && RoomFor(before, data, n, m)
        case SettingsArrive => SettingsArrive !in before
        case SessionEstablished => SettingsArrive in before && SessionEstablished !in before)
  }

  lemma FinishedSnoc(arrivals: seq<Arrival>)
    requires arrivals != []
    ensures var before, last := arrivals[..|arrivals| - 1], arrivals[|arrivals| - 1];
      Finished(arrivals) <==> Finished(before) || (last.Chunk? && last.fin)
  {
    var before, last := arrivals[..|arrivals| - 1], arrivals[|arrivals| - 1];
    if Finished(arrivals) {
      var i :| 0 <= i < |arrivals| && arrivals[i].Chunk? && arrivals[i].fin;
      assert i < |before| ==> before[i] == arrivals[i];
    }
    if Finished(before) {
      var i :| 0 <= i < |before| && before[i].Chunk? && before[i].fin;
      assert arrivals[i] == before[i];
    }
  }

  lemma {:induction false} ShapeAfter(stream: nat, arrivals: seq<Arrival>, whole: bytes, n: nat, m: nat)
    requires IsStream(whole, n, m) && Schedule(arrivals, whole, n, m)
    ensures Octets(arrivals) <= whole && (Finished(arrivals) ==> Octets(arrivals) == whole)
    ensures var e := After(stream, arrivals);
      && Shape(e, stream, Octets(arrivals), Finished(arrivals), n, m)
      && (e.negotiated <==> SettingsArrive in arrivals) && (e.established <==> SessionEstablished in arrivals)
    decreases |arrivals|
  {
    hide IsStream, Shape, Finished, Feed, Negotiate, Establish;
    if arrivals == [] {
      StartShape(stream, whole, n, m);
    } else {
      var before, last := arrivals[..|arrivals| - 1], arrivals[|arrivals| - 1];
      ShapeAfter(stream, before, whole, n, m);
      FinishedSnoc(arrivals);
      assert arrivals == before + [last];
      StepFlags(After(stream, before), stream, last);
      match last {
        case Chunk(data, fin) => FeedKeeps(After(stream, before), stream, Octets(before), data, fin, whole, n, m);
        case SettingsArrive => NegotiateKeeps(After(stream, before), stream, Octets(before), Finished(before), whole, n,
                                              m);
        case SessionEstablished => EstablishKeeps(After(stream, before), stream, Octets(before), Finished(before),
                                                  whole, n, m);
      }
    }
  }

  /** The limits are exactly those of the code: a chunk without room to wait fails the stream. */
  lemma NoRoomFails(stream: nat, before: seq<Arrival>, data: bytes, fin: bool, whole: bytes, n: nat, m: nat)
    requires IsStream(whole, n, m) && Schedule(before, whole, n, m) && NextChunk(before, data, fin, whole)
    ensures After(stream, before + [Chunk(data, fin)]).failed <==> !RoomFor(before, data, n, m)
  {
    hide IsStream, Shape, Finished, Feed;
    var arrivals, part := before + [Chunk(data, fin)], Octets(before);
    assert arrivals[..|before|] == before;
    ShapeAfter(stream, before, whole, n, m);
    if RoomFor(before, data, n, m) {
      FeedKeeps(After(stream, before), stream, part, data, fin, whole, n, m);
      ShapeNotFailed(After(stream, arrivals), stream, part + data, fin, n, m);
    } else {
      FeedFails(After(stream, before), stream, part, data, fin, whole, n, m);
    }
  }

  lemma ShapeNotFailed(e: Early, stream: nat, part: bytes, fin: bool, n: nat, m: nat)
    requires Shape(e, stream, part, fin, n, m)
    ensures !e.failed
  {
  }

  lemma FeedFails(e: Early, stream: nat, part: bytes, data: bytes, fin: bool, whole: bytes, n: nat, m: nat)
    requires IsStream(whole, n, m) && part + data <= whole && Shape(e, stream, part, false, n, m)
    requires !Room(|part + data|, e.negotiated, e.established, n, m)
    ensures Feed(e, stream, data, fin).failed
  {
    hide IsStream, Shape, Feed;
    NotEstablished(e, stream, part, data, n, m);
    if !e.negotiated {
      FeedFailsEarly(e, stream, part, data, fin, whole, n, m);
    } else if |part| >= n + m {
      FeedFailsWaiting(e, stream, part, data, fin, whole, n, m);
    } else {
      FeedFailsHeader(e, stream, part, data, fin, whole, n, m);
    }
  }

  lemma NotEstablished(e: Early, stream: nat, part: bytes, data: bytes, n: nat, m: nat)
    requires Shape(e, stream, part, false, n, m) && !Room(|part + data|, e.negotiated, e.established, n, m)
    ensures !e.established
  {
  }

  /** Before SETTINGS, what is kept would be too long. */
  lemma FeedFailsEarly(e: Early, stream: nat, part: bytes, data: bytes, fin: bool, whole: bytes, n: nat, m: nat)
    requires IsStream(whole, n, m) && part + data <= whole && Shape(e, stream, part, false, n, m)
    requires !Room(|part + data|, e.negotiated, e.established, n, m) && !e.negotiated
    ensures Feed(e, stream, data, fin).failed
  {
    hide V.Decode, HandleBidi, SeenOf;
    var buf := part + data;
    PartDecodes(whole, part, n, m);
    PartDecodes(whole, buf, n, m);
    HeaderIsShort(whole, n, m);
    assert buf[0..] == buf;
  }

  /** A stream that already waits would have too much waiting. */
  lemma FeedFailsWaiting(e: Early, stream: nat, part: bytes, data: bytes, fin: bool, whole: bytes, n: nat, m: nat)
    requires IsStream(whole, n, m) && part + data <= whole && Shape(e, stream, part, false, n, m)
    requires !Room(|part + data|, e.negotiated, e.established, n, m) && e.negotiated && |part| >= n + m
    ensures Feed(e, stream, data, fin).failed
  {
    hide V.Decode, ResolveHeader, Dispatch, SeenOf, EndOf, Give;
    PartDecodes(whole, part, n, m);
    assert (part + data)[n + m..] == part[n + m..] + data;
  }

  /** The chunk that completes the header brings too much. */
  lemma FeedFailsHeader(e: Early, stream: nat, part: bytes, data: bytes, fin: bool, whole: bytes, n: nat, m: nat)
    requires IsStream(whole, n, m) && part + data <= whole && Shape(e, stream, part, false, n, m)
    requires !Room(|part + data|, e.negotiated, e.established, n, m) && e.negotiated && |part| < n + m
    ensures Feed(e, stream, data, fin).failed
  {
    hide V.Decode, HandleBidi, Dispatch, SeenOf;
    var buf := part + data;
    PartDecodes(whole, part, n, m);
    PartDecodes(whole, buf, n, m);
    HeaderIsShort(whole, n, m);
    HeaderBringsTooMuch(e, stream, buf, data, fin, whole, n, m);
  }

  lemma HeaderBringsTooMuch(e: Early, stream: nat, buf: bytes, data: bytes, fin: bool, whole: bytes, n: nat, m: nat)
    requires IsStream(whole, n, m) && buf <= whole && |buf| > n + m + S.MAX_BUFFERED_STREAM_BYTES
    requires e.negotiated && !e.established && !e.registered && e.beforeSettings.None? && !e.failed
    requires if e.header.Some? then e.dispatch.None? && e.header.value + data == buf else Or(e.dispatch) + data == buf
    ensures Feed(e, stream, data, fin).failed
  {
    hide V.Decode, SeenOf, Give, EndOf;
    PartDecodes(whole, buf, n, m);
    assert buf[n..][m..] == buf[n + m..];
    assert [] + buf == buf && [] + buf[n + m..] == buf[n + m..];
  }

  lemma HeaderIsShort(whole: bytes, n: nat, m: nat)
    requires IsStream(whole, n, m)
    ensures n <= 8 && m <= 8
  {
    hide V.FromBigEndian;
  }

  lemma StartShape(stream: nat, whole: bytes, n: nat, m: nat)
    ensures Shape(START, stream, [], false, n, m) && !Finished([])
  {
    assert V.Decode([]).None?;
  }

  predicate SameFlags(e: Early, d: Early) {
    d.negotiated == e.negotiated && d.established == e.established
  }

  lemma ResolveFlags(e: Early, stream: nat, data: bytes)
    ensures SameFlags(e, ResolveHeader(e, stream, data))
  {
    hide V.Decode;
  }

  lemma HandleFlags(e: Early, stream: nat, data: bytes, fin: bool)
    ensures SameFlags(e, HandleBidi(e, stream, data, fin))
  {
    hide V.Decode, ResolveHeader;
    ResolveFlags(e, stream, data);
  }

  lemma DispatchFlags(e: Early, stream: nat, data: bytes, fin: bool)
    ensures SameFlags(e, Dispatch(e, stream, data, fin))
  {
    hide V.Decode, HandleBidi;
    HandleFlags(e.(dispatch := None), stream, Or(e.dispatch) + data, fin);
  }

  /** Only the two arrivals set the two flags. */
  lemma StepFlags(e: Early, stream: nat, a: Arrival)
    ensures var d := Step(e, stream, a);
      && d.negotiated == (e.negotiated || a.SettingsArrive?)
      && d.established == (e.established || a.SessionEstablished?)
  {
    hide V.Decode, HandleBidi, Dispatch;
    if a.Chunk? {
      HandleFlags(e, stream, a.data, a.fin);
      DispatchFlags(e, stream, a.data, a.fin);
    }
    if e.beforeSettings.Some? {
      HandleFlags(e.(negotiated := true, beforeSettings := None), stream, e.beforeSettings.value.0,
                  e.beforeSettings.value.1);
    }
  }

  /** Transparency: once the stream is complete, SETTINGS have arrived and the session is
      established, the application has seen exactly one opening, exactly the payload, and the end;
      the session is charged exactly the payload, one stream opened and one closed; nothing waits
      anywhere. How the octets were cut, header included, and what came early, made no
      difference. */
  lemma EarlyArrivalIsInvisible(stream: nat, arrivals: seq<Arrival>, whole: bytes, n: nat, m: nat)
    requires IsStream(whole, n, m) && Schedule(arrivals, whole, n, m)
    requires Finished(arrivals) && SettingsArrive in arrivals && SessionEstablished in arrivals
    ensures var e := After(stream, arrivals);
      && SeenOf(e.events, stream, true) == Ended(whole[n + m..])
      && e == Early(true, true, None, None, None, false, None, Charges(|whole| - n - m, 1, 1), e.events, false)
  {
    hide After, Schedule, Finished;
    ShapeAfter(stream, arrivals, whole, n, m);
    PartDecodes(whole, whole, n, m);
  }

  /** Every payload of every session has such a stream: the header as this side writes it. */
  lemma WrittenStream(session: V.varint, payload: bytes)
    requires session % 4 == 0
    ensures var whole := V.Encode(SIGNAL) + V.Encode(session) + payload;
      IsStream(whole, 2, V.Length(session)) && whole[2 + V.Length(session)..] == payload
  {
    hide V.Decode, V.BigEndian;
    var whole := V.Encode(SIGNAL) + V.Encode(session) + payload;
    V.RoundTrip(SIGNAL, V.Encode(session) + payload);
    V.RoundTrip(session, payload);
    assert whole == V.Encode(SIGNAL) + (V.Encode(session) + payload);
    assert whole[2..] == V.Encode(session) + payload;
  }

  /** Any two schedules of the same stream end alike. */
  lemma SchedulesAgree(stream: nat, a: seq<Arrival>, b: seq<Arrival>, whole: bytes, n: nat, m: nat)
    requires IsStream(whole, n, m) && Schedule(a, whole, n, m) && Schedule(b, whole, n, m)
    requires Finished(a) && SettingsArrive in a && SessionEstablished in a
    requires Finished(b) && SettingsArrive in b && SessionEstablished in b
    ensures SeenOf(After(stream, a).events, stream, true) == SeenOf(After(stream, b).events, stream, true)
    ensures After(stream, a).charges == After(stream, b).charges
  {
    hide After, Schedule, Finished, IsStream;
    EarlyArrivalIsInvisible(stream, a, whole, n, m);
    EarlyArrivalIsInvisible(stream, b, whole, n, m);
  }
}
