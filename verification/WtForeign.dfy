/** What is no WebTransport stream is never taken for one: whatever octets arrive, in whatever
    chunks, only those that begin with the signal and a session identifier reach a session. */
module WtForeign {
  import opened Bytes
  import opened WtEarlyStream
  import opened WtTransparency
  import V = VarInts
  import S = WtSession
  import K = WtConnection
  import W = WtStreamView
  import U = WtUniStream

  /** The octets begin with the signal and the identifier of a stream on which a client can have
      sent a CONNECT request. */
  predicate Headed(octets: bytes) {
    var signal := V.Decode(octets);
    && signal.Some? && signal.value.0 == 0x41
    && var session := V.Decode(octets[signal.value.1..]);
      session.Some? && session.value.0 % 4 == 0
  }

  /** Both integers of a header are there, whatever they are. */
  predicate IsComplete(octets: bytes) {
    V.Decode(octets).Some? && V.Decode(octets[V.Decode(octets).value.1..]).Some?
  }

  /** The first integer is the signal, if it is there. */
  predicate MayBeSignal(octets: bytes) {
    V.Decode(octets).Some? ==> V.Decode(octets).value.0 == 0x41
  }

  /** The stream has met its session, or waits for it. */
  predicate IsTaken(e: Early) {
    e.registered || e.entry.Some? || e.events != [] || e.charges != NOTHING
  }

  /** A stream is taken only behind a header; until then all its octets wait in one place. */
  predicate Careful(e: Early, octets: bytes, fin: bool) {
    e.failed ||
    (MayBeSignal(octets) && (e.negotiated && IsComplete(octets) ==> IsTaken(e)) &&
    if IsTaken(e) then
      && Headed(octets) && e.negotiated && (fin || e.registered) && (e.entry.Some? && e.entry.value.fin ==> fin)
      && e.dispatch.None? && e.beforeSettings.None? && e.header.None?
    else if e.beforeSettings.Some? then
      e.beforeSettings.value == (octets, fin) && e.dispatch.None? && e.header.None? && !e.negotiated
      && V.Decode(octets).Some?
    else
      && (e.negotiated || V.Decode(octets).None?)
      && (fin || if e.header.Some? then e.header.value == octets && e.dispatch.None?
          && e.negotiated else Or(e.dispatch) == octets))
  }

  lemma HeadedMore(octets: bytes, more: bytes)
    requires Headed(octets)
    ensures Headed(octets + more) && MayBeSignal(octets + more)
  {
    hide V.Decode;
    V.Stable(octets, more);
    var n := V.Decode(octets).value.1;
    assert (octets + more)[n..] == octets[n..] + more;
    V.Stable(octets[n..], more);
  }

  lemma HeaderCareful(e: Early, stream: nat, data: bytes, fin: bool)
    requires !e.failed && !IsTaken(e) && e.negotiated && e.dispatch.None? && e.beforeSettings.None?
    ensures Careful(HandleBidi(e, stream, data, fin), Or(e.header) + data, fin)
  {
    hide V.Decode;
    var octets := Or(e.header) + data;
    if octets != [] && V.Decode(octets).Some? {
      assert V.Decode(octets).value.0 == SIGNAL ==> SIGNAL == 0x41;
    }
  }

  lemma DispatchCareful(e: Early, stream: nat, data: bytes, fin: bool)
    requires !e.failed && !IsTaken(e) && e.header.None? && e.beforeSettings.None?
    ensures Careful(Dispatch(e, stream, data, fin), Or(e.dispatch) + data, fin)
  {
    hide V.Decode, HandleBidi;
    var octets, d := Or(e.dispatch) + data, e.(dispatch := None);
    assert [] + octets == octets;
    if e.negotiated {
      HeaderCareful(d, stream, octets, fin);
    }
  }

  lemma MoreOctets(octets: bytes, more: bytes)
    ensures MayBeSignal(octets + more) ==> MayBeSignal(octets)
    ensures V.Decode(octets).Some? && MayBeSignal(octets) ==> MayBeSignal(octets + more)
    ensures IsComplete(octets) ==> IsComplete(octets + more)
    ensures V.Decode(octets).Some? ==> V.Decode(octets + more).Some?
  {
    hide V.Decode;
    if V.Decode(octets).Some? {
      V.Stable(octets, more);
      var n := V.Decode(octets).value.1;
      assert (octets + more)[n..] == octets[n..] + more;
      if V.Decode(octets[n..]).Some? {
        V.Stable(octets[n..], more);
      }
    }
  }

  lemma FeedCareful(e: Early, stream: nat, octets: bytes, data: bytes, fin: bool)
    requires Careful(e, octets, false) && !e.failed
    ensures Careful(Feed(e, stream, data, fin), octets + data, fin)
  {
    hide V.Decode, ResolveHeader, Headed, Dispatch, MayBeSignal, IsComplete;
    MoreOctets(octets, data);
    if IsTaken(e) {
      HeadedMore(octets, data);
    } else if e.beforeSettings.None? {
      if e.header.Some? {
        FeedHeader(e, stream, octets, data, fin);
      } else {
        DispatchCareful(e, stream, data, fin);
      }
    }
  }

  lemma FeedHeader(e: Early, stream: nat, octets: bytes, data: bytes, fin: bool)
    requires Careful(e, octets, false) && !e.failed && !IsTaken(e) && e.beforeSettings.None? && e.header.Some?
    requires e.negotiated
    ensures Careful(Feed(e, stream, data, fin), octets + data, fin)
  {
    hide HandleBidi;
    HeaderCareful(e, stream, data, fin);
  }

  lemma NegotiateCareful(e: Early, stream: nat, octets: bytes, fin: bool)
    requires Careful(e, octets, fin) && !e.failed
    ensures Careful(Negotiate(e, stream), octets, fin)
  {
    hide V.Decode, HandleBidi, Headed;
    if e.beforeSettings.Some? {
      var d := e.(negotiated := true, beforeSettings := None);
      HeaderCareful(d, stream, octets, fin);
      assert [] + octets == octets;
    }
  }

  lemma EstablishCareful(e: Early, stream: nat, octets: bytes, fin: bool)
    requires Careful(e, octets, fin) && !e.failed
    ensures Careful(Establish(e, stream), octets, fin)
  {
    hide V.Decode, Headed, S.EventsOf;
    if e.entry.Some? {
      EventsAreSome(stream, e.entry.value);
    }
  }

  lemma EventsAreSome(stream: nat, entry: S.Entry)
    ensures S.EventsOf(stream, entry) != []
  {
  }

  // ---- Once refused, always refused -------------------------------------------------

  lemma ResolveStays(e: Early, stream: nat, data: bytes)
    requires e.failed
    ensures ResolveHeader(e, stream, data).failed
  {
    hide V.Decode;
  }

  lemma HandleStays(e: Early, stream: nat, data: bytes, fin: bool)
    requires e.failed
    ensures HandleBidi(e, stream, data, fin).failed
  {
    hide V.Decode, ResolveHeader;
    ResolveStays(e, stream, data);
  }

  lemma DispatchStays(e: Early, stream: nat, data: bytes, fin: bool)
    requires e.failed
    ensures Dispatch(e, stream, data, fin).failed
  {
    hide V.Decode, HandleBidi;
    HandleStays(e.(dispatch := None), stream, Or(e.dispatch) + data, fin);
  }

  lemma FailedStays(e: Early, stream: nat, a: Arrival)
    requires e.failed
    ensures Step(e, stream, a).failed
  {
    hide HandleBidi, Dispatch;
    match a {
      case Chunk(data, fin) =>
        HandleStays(e, stream, data, fin);
        DispatchStays(e, stream, data, fin);
      case SettingsArrive =>
        if e.beforeSettings.Some? {
          HandleStays(e.(negotiated := true, beforeSettings := None), stream, e.beforeSettings.value.0,
                      e.beforeSettings.value.1);
        }
      case SessionEstablished =>
    }
  }

  // ---- All schedules -------------------------------------------------------------------

  /** Nothing comes after the end of the stream. That is all that is asked of the arrivals. */
  predicate Ordered(arrivals: seq<Arrival>) {
    forall i :: 0 <= i < |arrivals| && arrivals[i].Chunk? ==> !Finished(arrivals[..i])
  }

  lemma {:induction false} AfterCareful(stream: nat, arrivals: seq<Arrival>)
    requires Ordered(arrivals)
    ensures Careful(After(stream, arrivals), Octets(arrivals), Finished(arrivals))
    decreases |arrivals|
  {
    hide Careful, Step, Finished;
    if arrivals == [] {
      StartCareful();
    } else {
      var n := |arrivals| - 1;
      var before, last := arrivals[..n], arrivals[n];
      forall i | 0 <= i < n && before[i].Chunk?
        ensures !Finished(before[..i])
      {
        assert before[..i] == arrivals[..i] && before[i] == arrivals[i];
      }
      AfterCareful(stream, before);
      FinishedSnoc(arrivals);
      StepCareful(After(stream, before), stream, Octets(before), Finished(before), last);
    }
  }

  lemma StartCareful()
    ensures Careful(START, [], false) && !Finished([])
  {
  }

  lemma StepCareful(e: Early, stream: nat, octets: bytes, fin: bool, a: Arrival)
    requires Careful(e, octets, fin) && (a.Chunk? ==> !fin)
    ensures Careful(Step(e, stream, a), if a.Chunk? then octets + a.data else octets, fin || (a.Chunk? && a.fin))
  {
    hide Feed, Negotiate, Establish, Headed;
    if e.failed {
      FailedStays(e, stream, a);
      FailedIsCareful(Step(e, stream, a), if a.Chunk? then octets + a.data else octets, fin || (a.Chunk? && a.fin));
    } else {
      match a {
        case Chunk(data, last) => FeedCareful(e, stream, octets, data, last);
        case SettingsArrive => NegotiateCareful(e, stream, octets, fin);
        case SessionEstablished => EstablishCareful(e, stream, octets, fin);
      }
    }
  }

  lemma FailedIsCareful(e: Early, octets: bytes, fin: bool)
    requires e.failed
    ensures Careful(e, octets, fin)
  {
  }

  /** Whatever arrives of a stream, in whatever chunks and with SETTINGS and the session at whatever
      moments, short of a refusal: once SETTINGS are there, the stream is taken exactly when its
      octets begin with a header; before that nothing is reported, charged or kept for a session,
      and until the stream ends not one octet is lost. A stream whose first integer is not the
      signal, or, once SETTINGS are there, whose session identifier is wrong, is refused. */
  lemma OnlyHeadedStreams(stream: nat, arrivals: seq<Arrival>)
    requires Ordered(arrivals)
    ensures var e, octets := After(stream, arrivals), Octets(arrivals);
      && (!e.failed ==>
            && (IsTaken(e) ==> e.negotiated)
            && (e.negotiated ==> (IsTaken(e) <==> Headed(octets)))
            && (!IsTaken(e) && !Finished(arrivals) ==>
                  || e.beforeSettings == Some((octets, false))
                  || e.header == Some(octets) || Or(e.dispatch) == octets))
      && (!MayBeSignal(octets) ==> e.failed)
      && (e.negotiated && IsComplete(octets) && !Headed(octets) ==> e.failed)
  {
    hide After, Octets, Finished, MayBeSignal;
    AfterCareful(stream, arrivals);
  }

  // ---- Unidirectional streams -------------------------------------------------------------

  /** What the front holds of a stream that goes on: the octets in front of its type, or those
      between its type and its session identifier. */
  predicate Holds(f: U.Front, octets: bytes) {
    match f
    case Typing(buf) => buf == octets && V.Decode(octets).None?
    case Naming(buf) =>
      var kind := V.Decode(octets);
      && kind.Some? && kind.value.0 == 0x54 && buf == octets[kind.value.1..] && V.Decode(buf).None?
    case _ => false
  }

  /** What becomes of the front with one more chunk, told from all the octets so far. The type has
      to be 0x54 and to come after SETTINGS, the session identifier has to be that of a request
      stream; the connection hears of the stream when both are there, and of its end in the same
      breath if type and identifier came in one chunk with it. */
  lemma UniTakenExactly(f: U.Front, w: W.Who, negotiated: bool, octets: bytes, data: bytes, fin: bool)
    requires Holds(f, octets)
    ensures var ((g, inputs), all) := (U.Take(f, w, negotiated, data, fin), octets + data);
      var waits := (h: U.Front) => if fin then g == U.Lost && inputs == [] else g == h && inputs == [] && Holds(g, all);
      match V.Decode(all)
      case None => waits(U.Typing(all))
      case Some((kind, n)) =>
        if kind != 0x54 || (f.Typing? && !negotiated) then g == U.Lost && inputs == []
        else
          match V.Decode(all[n..])
          case None => waits(U.Naming(all[n..]))
          case Some((session, m)) =>
            var first := K.InNewStream(w.stream, session, false, all[n..][m..]);
            if session % 4 != 0 then g == U.Lost && inputs == []
            else if !fin then g == U.Named && inputs == [first]
            else if f.Naming? then g == U.Named && inputs == [first, K.InStreamData(w.stream, [], true)]
            else g == U.Lost && inputs == [K.InOneChunk(w.stream, session, all[n..][m..])]
  {
    hide V.Decode;
    var all := octets + data;
    assert data == [] ==> all == octets;
    if f.Naming? {
      V.Stable(octets, data);
      var n := V.Decode(octets).value.1;
      assert all[n..] == octets[n..] + data;
    }
  }
}
