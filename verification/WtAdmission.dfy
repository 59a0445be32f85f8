/** What becomes of a new stream, told from the state before it. */
module WtAdmission {
  import opened Bytes
  import opened WtWindows
  import S = WtSession
  import opened WtConnection

  /** The stream will wait for session `at`: it is pending and has room, or is made for it. */
  predicate MayWait(c: Conn, at: nat) {
    if at in c.sessions then c.sessions[at].phase.Pending? && |c.sessions[at].order| < 100
    else
      && c.role.Server? && at !in c.closed && (c.goaway.None? || at < c.goaway.value)
      && PendingCount(c) < 16
  }

  /** The stream will be opened, and all its payload accepted. */
  predicate MayOpen(c: Conn, at: nat, isBidi: bool, payload: bytes) {
    && at in c.sessions && c.sessions[at].phase.Established?
    && S.CheckReceivedStream(c.sessions[at], isBidi)
    && (payload == [] || S.CheckReceivedData(c.sessions[at], |payload|))
  }

  /** The stream will wait, with all its payload. */
  predicate Held(c: Conn, at: nat, payload: bytes) {
    MayWait(c, at) && |payload| <= 65536
  }

  /** Neither refused nor gone, and no limit broken. */
  predicate Stays(c: Conn, at: nat, isBidi: bool, payload: bytes) {
    Held(c, at, payload) || MayOpen(c, at, isBidi, payload)
  }

  /** The stream will be opened; its payload may still break the data limit. */
  predicate WillOpen(c: Conn, at: nat, isBidi: bool) {
    at in c.sessions && c.sessions[at].phase.Established? && S.CheckReceivedStream(c.sessions[at], isBidi)
  }

  /** The stream will be rejected: nothing to wait for, no room, or too much payload. */
  predicate WillBeRefused(c: Conn, at: nat, payload: bytes) {
    !(at in c.sessions && c.sessions[at].phase.Established?) && !Held(c, at, payload)
  }

  /** How a stream meets its session. */
  lemma AssociateIs(c: Conn, stream: nat, at: nat, isBidi: bool)
    ensures var (d, outcome) := Associate(c, stream, at, isBidi);
      && (outcome.Buffered? <==> MayWait(c, at))
      && (outcome.Joined? <==> at in c.sessions && c.sessions[at].phase.Established?)
      && (outcome.Gone? || outcome.Overflow? ==> d == c)
      && (outcome.Buffered? ==>
            var s := if at in c.sessions then c.sessions[at] else S.NEW;
            d == Put(c, at, s.(order := s.order + [stream],
                               entries := s.entries[stream := S.Entry(isBidi, [], false)])))
      && (outcome.Joined? ==> d == Put(c, at, c.sessions[at].(associated := c.sessions[at].associated + {stream})))
  {
    hide PendingCount;
  }

  lemma SameDataWindow(s: S.Session, isBidi: bool, associated: set<nat>, n: nat)
    ensures var r := s.(associated := associated);
      && (S.CheckReceivedStream(r, isBidi) <==> S.CheckReceivedStream(s, isBidi))
      && (S.CheckReceivedData(S.AddReceivedStream(r, isBidi), n) <==> S.CheckReceivedData(s, n))
      && S.AddReceivedStream(r, isBidi).associated == associated && S.AddReceivedStream(r, isBidi).phase == s.phase
  {
  }

  /** A new stream stays registered if and only if none of that happens. */
  lemma StaysRegistered(c: Conn, stream: nat, at: nat, isBidi: bool, payload: bytes)
    requires stream !in c.streams
    ensures stream in NewStream(c, stream, at, isBidi, payload).streams <==> Stays(c, at, isBidi, payload)
  {
    hide Associate, MayWait, S.CheckReceivedStream, S.CheckReceivedData, S.AddReceivedStream, S.AddAndTrack,
        PendingCount;
    var start := c.(streams := c.streams[stream := Registration(at, isBidi)]);
    AssociateIs(start, stream, at, isBidi);
    SameAdmission(c, start, at);
    if at in c.sessions {
      SameDataWindow(c.sessions[at], isBidi, c.sessions[at].associated + {stream}, |payload|);
    }
  }

  lemma SameAdmission(c: Conn, d: Conn, at: nat)
    requires d == c.(streams := d.streams)
    ensures MayWait(d, at) <==> MayWait(c, at)
  {
  }
}
