/** The receive windows of a WebTransport session: how many streams and how many octets the
    peer may use, and when a larger maximum is announced. */
module WtWindows {
  import opened Bytes

  /** The largest stream count that may be announced, 2^60. */
  const MAX_STREAMS_LIMIT: nat := 0x1000_0000_0000_0000

  datatype DataWindow = DataWindow(initial: nat, max: nat, consumed: nat, received: nat)

  datatype StreamWindow = StreamWindow(concurrent: nat, max: nat, closed: nat, received: nat)

  function Minus(a: nat, b: nat): nat {
    if a >= b then a - b else 0
  }

  function NewData(initial: nat): DataWindow {
    DataWindow(initial, initial, 0, 0)
  }

  predicate CheckData(w: DataWindow, n: nat) {
    Minus(w.max, w.received) >= n
  }

  function ReceiveData(w: DataWindow, n: nat): DataWindow {
    w.(received := w.received + n)
  }

  /** The window after `n` octets were consumed, and the maximum to announce. */
  function ConsumeData(w: DataWindow, n: nat): (DataWindow, Option<nat>) {
    var v := w.(consumed := w.consumed + n);
    if v.initial > 0 && Minus(v.max, v.received) <= v.initial / 2 && v.consumed + v.initial > v.max
    then (v.(max := v.consumed + v.initial), Some(v.consumed + v.initial))
    else (v, None)
  }

  function NewStreams(concurrent: nat): StreamWindow {
    StreamWindow(concurrent, concurrent, 0, 0)
  }

  predicate CheckStream(w: StreamWindow) {
    w.received < w.max
  }

  function ReceiveStream(w: StreamWindow): StreamWindow {
    w.(received := w.received + 1)
  }

  function CloseStream(w: StreamWindow): (StreamWindow, Option<nat>) {
    var v := w.(closed := w.closed + 1);
    var max := if v.closed + v.concurrent < MAX_STREAMS_LIMIT then v.closed + v.concurrent else MAX_STREAMS_LIMIT;
    if v.concurrent > 0 && Minus(v.max, v.received) <= v.concurrent / 2 && max > v.max
    then (v.(max := max), Some(max))
    else (v, None)
  }

  /** Nothing beyond the announced maximum was accepted, and the announced maximum never ran
      ahead of consumption by more than the initial window. */
  predicate DataKept(w: DataWindow) {
    w.received <= w.max <= w.consumed + w.initial
  }

  predicate StreamsKept(w: StreamWindow) {
    w.received <= w.max <= w.closed + w.concurrent
  }

  /** Accepting what the check allows, and consuming, keep the window; the announced maximum
      never shrinks, and so unconsumed octets never exceed the initial window. */
  lemma DataWindowKept(w: DataWindow, n: nat)
    requires DataKept(w)
    ensures CheckData(w, n) <==> w.received + n <= w.max
    ensures CheckData(w, n) ==> DataKept(ReceiveData(w, n))
    ensures DataKept(ConsumeData(w, n).0) && w.max <= ConsumeData(w, n).0.max
    ensures w.received <= w.consumed + w.initial
    ensures var (v, announced) := ConsumeData(w, n); announced == if v.max > w.max then Some(v.max) else None
  {
  }

  /** A larger maximum is announced exactly when half the window or less is left and consumption
      allows for more; it is then a whole window beyond what was consumed. */
  lemma DataAnnounced(w: DataWindow, n: nat)
    requires DataKept(w)
    ensures var (v, announced) := ConsumeData(w, n);
      && v.initial == w.initial && v.received == w.received && v.consumed == w.consumed + n
      && (announced.Some? <==>
            w.initial > 0 && 2 * (w.max - w.received) <= w.initial && w.max < w.consumed + n + w.initial)
      && (announced.Some? ==> announced.value == w.consumed + n + w.initial)
  {
  }

  /** A peer whose octets are all consumed never starves: more than half the window is open. */
  lemma DataNeverStarves(w: DataWindow, n: nat)
    requires DataKept(w) && w.initial > 0 && w.consumed + n == w.received
    ensures var v := ConsumeData(w, n).0; 2 * (v.max - v.received) > v.initial
  {
  }

  lemma StreamsAnnounced(w: StreamWindow)
    requires StreamsKept(w)
    ensures var (v, announced) := CloseStream(w);
      var next := if w.closed + 1 + w.concurrent < MAX_STREAMS_LIMIT then w.closed + 1 + w.concurrent
          else MAX_STREAMS_LIMIT;
      && v.concurrent == w.concurrent && v.received == w.received && v.closed == w.closed + 1
      && (announced.Some? <==> w.concurrent > 0 && 2 * (w.max - w.received) <= w.concurrent && w.max < next)
      && (announced.Some? ==> announced.value == next)
  {
  }

  /** A peer whose streams have all ended may open more than half as many as at first, up to the
      largest count that can be announced. */
  lemma StreamsNeverStarve(w: StreamWindow)
    requires StreamsKept(w) && w.concurrent > 0 && w.closed + 1 == w.received
    requires w.closed + 1 + w.concurrent <= MAX_STREAMS_LIMIT
    ensures var v := CloseStream(w).0; 2 * (v.max - v.received) > v.concurrent
  {
  }

  lemma StreamWindowKept(w: StreamWindow)
    requires StreamsKept(w)
    ensures CheckStream(w) ==> StreamsKept(ReceiveStream(w))
    ensures StreamsKept(CloseStream(w).0) && w.max <= CloseStream(w).0.max
    ensures var (v, announced) := CloseStream(w); announced == if v.max > w.max then Some(v.max) else None
  {
  }
}
