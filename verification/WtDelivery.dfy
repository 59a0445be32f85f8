/** The books of a session while its early streams are delivered. */
module WtDelivery {
  import opened Bytes
  import opened WtWindows
  import S = WtSession
  import opened WtConnection
  import opened WtAccounting

  // ---- Delivery of early streams ---------------------------------------------------------------

  /** The books while early streams are being delivered; `gone` have ended already. */
  ghost predicate Books(role: Role, id: nat, s: S.Session, events: seq<Event>, gone: set<nat>) {
    && (s.windows.Some? ==> WindowsKept(s.windows.value) && s.windows.value.data.received == Total(role, id, events))
    && (forall x: nat :: x !in gone ==> S.Accounted(s, x) == Charge(role, id, x, events))
    && (forall x :: x in s.tracked ==> x !in gone && x !in s.entries)
    && (forall x :: x in gone ==> x !in s.entries)
  }

  lemma BooksOpened(role: Role, id: nat, s: S.Session, events: seq<Event>, gone: set<nat>, stream: nat, entry: S.Entry)
    requires Books(role, id, s, events, gone) && S.CheckReceivedStream(s, entry.isBidi)
    ensures Books(role, id, S.OpenedSession(s, stream, entry), events + [StreamEvent(id, S.Open(entry.isBidi, stream))],
                  gone)
  {
    hide Charge, Total;
    var e := StreamEvent(id, S.Open(entry.isBidi, stream));
    forall x: nat
      ensures Charge(role, id, x, events + [e]) == Charge(role, id, x, events)
    {
      NeutralEvents(role, id, x, events, [e]);
    }
    NeutralEvents(role, id, 0, events, [e]);
    if s.windows.Some? {
      StreamWindowKept(if entry.isBidi then s.windows.value.bidi else s.windows.value.uni);
    }
  }

  lemma BooksFilled(role: Role, id: nat, s: S.Session, events: seq<Event>, gone: set<nat>, stream: nat, isBidi: bool,
                    data: bytes)
    requires Books(role, id, s, events, gone) && S.CheckReceivedData(s, |data|) && stream !in s.entries
        && stream !in gone
    ensures Books(role, id, S.AddAndTrack(s, stream, |data|), events + [StreamEvent(id, S.Data(isBidi, stream, data))],
                  gone)
  {
    hide Charge, Total, S.AddAndTrack, S.Accounted;
    var e := StreamEvent(id, S.Data(isBidi, stream, data));
    AddAndTrackEffect(s, stream, |data|);
    AddAndTrackEntries(s, stream, |data|);
    forall x: nat
      ensures Charge(role, id, x, events + [e]) == Charge(role, id, x, events) + if x == stream then |data| else 0
    {
      ChargeSnoc(role, id, x, events, e);
    }
    ChargeSnoc(role, id, stream, events, e);
    if s.windows.Some? {
      DataWindowKept(s.windows.value.data, |data|);
    }
  }

  lemma AddAndTrackEntries(s: S.Session, stream: nat, n: nat)
    ensures S.AddAndTrack(s, stream, n).entries == s.entries
  {
  }

  lemma BooksEnded(role: Role, id: nat, s: S.Session, events: seq<Event>, gone: set<nat>, stream: nat, isBidi: bool)
    requires Books(role, id, s, events, gone) && stream !in s.entries
    ensures Books(role, id, S.Untrack(S.OnRemoteStreamClosed(s, isBidi), stream),
                  events + [StreamEvent(id, S.End(isBidi, stream))],
                  gone + {stream})
  {
    hide Charge, Total, S.Accounted, S.OnRemoteStreamClosed;
    var e, r := StreamEvent(id, S.End(isBidi, stream)), S.OnRemoteStreamClosed(s, isBidi);
    ClosedEffect(s, isBidi);
    ClosedEntries(s, isBidi);
    SameTracked(s, r);
    UntrackEffect(r, stream);
    forall x: nat
      ensures Charge(role, id, x, events + [e]) == Charge(role, id, x, events)
    {
      NeutralEvents(role, id, x, events, [e]);
    }
    NeutralEvents(role, id, 0, events, [e]);
  }

  lemma ClosedEntries(s: S.Session, isBidi: bool)
    ensures S.OnRemoteStreamClosed(s, isBidi).entries == s.entries
  {
  }

  /** One early stream that passes both limits. */
  lemma BooksDelivered(role: Role, id: nat, s: S.Session, events: seq<Event>, gone: set<nat>, stream: nat,
                       entry: S.Entry)
    requires Books(role, id, s, events, gone) && stream !in s.entries && stream !in gone
    requires S.CheckReceivedStream(s, entry.isBidi)
    requires entry.data == [] || S.CheckReceivedData(S.OpenedSession(s, stream, entry), |entry.data|)
    ensures Books(role, id, S.DeliveredSession(s, stream, entry), events + Wrap(id, S.EventsOf(stream, entry)),
                  if entry.fin then gone + {stream} else gone)
  {
    hide Books, S.AddAndTrack, S.Untrack, S.OnRemoteStreamClosed, S.OpenedSession, S.CheckReceivedStream,
        S.CheckReceivedData;
    var e1, e2, e3 := S.Open(entry.isBidi, stream), S.Data(entry.isBidi, stream, entry.data),
        S.End(entry.isBidi, stream);
    var start := S.OpenedSession(s, stream, entry);
    BooksOpened(role, id, s, events, gone, stream, entry);
    S.OpenedAssociates(s, stream, entry);
    var evs1 := events + [StreamEvent(id, e1)];
    var filled, evs2 := start, evs1;
    if entry.data != [] {
      BooksFilled(role, id, start, evs1, gone, stream, entry.isBidi, entry.data);
      AddAndTrackEntries(start, stream, |entry.data|);
      filled, evs2 := S.AddAndTrack(start, stream, |entry.data|), evs1 + [StreamEvent(id, e2)];
    }
    if entry.fin {
      BooksEnded(role, id, filled, evs2, gone, stream, entry.isBidi);
      assert events + Wrap(id, S.EventsOf(stream, entry)) == evs2 + [StreamEvent(id, e3)];
    } else {
      assert events + Wrap(id, S.EventsOf(stream, entry)) == evs2;
    }
  }

  lemma ClosedIdsConcat(a: seq<(nat, bool)>, b: seq<(nat, bool)>)
    ensures ClosedIds(a + b) == ClosedIds(a) + ClosedIds(b)
  {
    var c := a + b;
    forall x | x in ClosedIds(a) + ClosedIds(b)
      ensures x in ClosedIds(c)
    {
      if x in ClosedIds(a) {
        var i :| 0 <= i < |a| && a[i].0 == x;
        assert c[i] == a[i];
      } else {
        var i :| 0 <= i < |b| && b[i].0 == x;
        assert c[|a| + i] == b[i];
      }
    }
    forall x | x in ClosedIds(c)
      ensures x in ClosedIds(a) + ClosedIds(b)
    {
      var i :| 0 <= i < |c| && c[i].0 == x;
      assert c[i] == if i < |a| then a[i] else b[i - |a|];
    }
  }

  lemma WrapConcat(id: nat, a: seq<S.Event>, b: seq<S.Event>)
    ensures Wrap(id, a + b) == Wrap(id, a) + Wrap(id, b)
  {
  }

  lemma {:induction false} BooksAfter(role: Role, id: nat, s: S.Session, events: seq<Event>, gone: set<nat>,
                                      ids: seq<nat>)
    requires Books(role, id, s, events, gone)
    ensures var d := S.DeliverFrom(s, ids);
      !d.violation ==> Books(role, id, d.session, events + Wrap(id, d.events), gone + ClosedIds(d.closed))
    decreases |ids|
  {
    hide Books, S.DeliveredSession, S.OpenedSession, S.CheckReceivedStream, S.CheckReceivedData, ClosedIds, Wrap,
        S.EventsOf;
    if ids == [] {
      NothingDelivered(id, events);
      assert gone + ClosedIds([]) == gone;
    } else if ids[0] !in s.entries {
      BooksAfter(role, id, s, events, gone, ids[1..]);
    } else {
      var stream, entry, t := ids[0], s.entries[ids[0]], S.DropEntry(s, ids[0]);
      if S.CheckReceivedStream(t, entry.isBidi)
         && (entry.data == [] || S.CheckReceivedData(S.OpenedSession(t, stream, entry), |entry.data|)) {
        BooksTaken(role, id, s, events, gone, stream);
        BooksDelivered(role, id, t, events, gone, stream, entry);
        var next, part := S.DeliveredSession(t, stream, entry), S.EventsOf(stream, entry);
        var ended := if entry.fin then [(stream, entry.isBidi)] else [];
        BooksAfter(role, id, next, events + Wrap(id, part), if entry.fin then gone + {stream} else gone, ids[1..]);
        var rest := S.DeliverFrom(next, ids[1..]);
        WrapConcat(id, part, rest.events);
        assert events + Wrap(id, part) + Wrap(id, rest.events) == events + (Wrap(id, part) + Wrap(id, rest.events));
        ClosedIdsConcat(ended, rest.closed);
        OneClosed(stream, entry.isBidi);
        assert gone + ClosedIds(ended + rest.closed) == gone + ClosedIds(ended) + ClosedIds(rest.closed);
        assert gone + ClosedIds(ended) == if entry.fin then gone + {stream} else gone;
      }
    }
  }

  lemma NothingDelivered(id: nat, events: seq<Event>)
    ensures events + Wrap(id, []) == events && ClosedIds([]) == {}
  {
  }

  lemma OneClosed(stream: nat, isBidi: bool)
    ensures ClosedIds([(stream, isBidi)]) == {stream} && ClosedIds([]) == {}
  {
    assert [(stream, isBidi)][0].0 == stream;
  }

  lemma BooksTaken(role: Role, id: nat, s: S.Session, events: seq<Event>, gone: set<nat>, stream: nat)
    requires Books(role, id, s, events, gone) && stream in s.entries
    ensures Books(role, id, S.DropEntry(s, stream), events, gone) && stream !in gone
  {
    hide Charge, Total;
  }

  ghost predicate Ends(events: seq<S.Event>, stream: nat) {
    exists i :: 0 <= i < |events| && events[i].End? && events[i].stream == stream
  }

  /** What delivery reaches: only streams that waited, each with its report. */
  lemma {:induction false} DeliverScope(s: S.Session, ids: seq<nat>)
    ensures var d := S.DeliverFrom(s, ids);
      && d.session.phase == s.phase
      && (forall x :: x in d.session.associated ==> x in s.associated || x in s.entries)
      && (forall x :: x in ClosedIds(d.closed) ==> x in s.entries)
      && (forall x :: x in d.session.tracked ==> x in s.tracked || x in s.entries)
      && (forall x :: x in ClosedIds(d.closed) ==> Ends(d.events, x))
    decreases |ids|
  {
    hide S.DeliveredSession, S.OpenedSession, S.CheckReceivedStream, S.CheckReceivedData, S.DropEntry, ClosedIds, Ends;
    OneClosed(0, false);
    if ids != [] {
      if ids[0] !in s.entries {
        DeliverScope(s, ids[1..]);
      } else {
        var stream, entry, t := ids[0], s.entries[ids[0]], S.DropEntry(s, ids[0]);
        RestoreScope(S.RestoreEntry(t, stream, entry), ids[1..]);
        RestoreScope(S.OpenedSession(t, stream, entry), ids[1..]);
        DeliveredScope(t, stream, entry);
        var next := S.DeliveredSession(t, stream, entry);
        DeliverScope(next, ids[1..]);
        OneClosed(stream, entry.isBidi);
        var ended := if entry.fin then [(stream, entry.isBidi)] else [];
        ClosedIdsConcat(ended, S.DeliverFrom(next, ids[1..]).closed);
        EndFirst(stream, entry, S.DeliverFrom(next, ids[1..]).events);
      }
    }
  }

  lemma EndFirst(stream: nat, entry: S.Entry, more: seq<S.Event>)
    ensures entry.fin ==> Ends(S.EventsOf(stream, entry) + more, stream)
    ensures forall x :: Ends(more, x) ==> Ends(S.EventsOf(stream, entry) + more, x)
  {
    var part, all := S.EventsOf(stream, entry), S.EventsOf(stream, entry) + more;
    if entry.fin {
      assert all[|part| - 1] == part[|part| - 1] == S.End(entry.isBidi, stream);
    }
    forall x | Ends(more, x)
      ensures Ends(all, x)
    {
      var i :| 0 <= i < |more| && more[i].End? && more[i].stream == x;
      assert all[|part| + i] == more[i];
    }
  }

  lemma DeliveredScope(s: S.Session, stream: nat, entry: S.Entry)
    ensures var r := S.OpenedSession(s, stream, entry);
      r.phase == s.phase && r.associated == s.associated + {stream} && r.tracked == s.tracked && r.entries == s.entries
    ensures var r := S.DeliveredSession(s, stream, entry);
      && r.phase == s.phase && r.associated == s.associated + {stream} && r.entries == s.entries
      && (forall x :: x in r.tracked ==> x in s.tracked || x == stream)
  {
  }

  lemma {:induction false} RestoreScope(s: S.Session, ids: seq<nat>)
    ensures var r := S.RestoreAll(s, ids);
      r.phase == s.phase && r.associated == s.associated && r.tracked == s.tracked && r.windows == s.windows
    decreases |ids|
  {
    if ids != [] {
      if ids[0] in s.entries {
        RestoreScope(S.RestoreEntry(S.DropEntry(s, ids[0]), ids[0], s.entries[ids[0]]), ids[1..]);
      } else {
        RestoreScope(s, ids[1..]);
      }
    }
  }
}
