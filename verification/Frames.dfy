/** HTTP/3 frames (section 7 of RFC 9114): a self-delimiting encoding and its parser. */
module Frames {
  import opened Bytes
  import opened Settings
  import V = VarInts

  type varint = V.varint

  datatype Frame =
    | DataFrame(data: bytes)
    | HeadersFrame(section: bytes)
    | SettingsFrame(settings: seq<Setting>)
    | GoawayFrame(id: varint)
    | MaxPushIdFrame(id: varint)
    | UnknownFrame(kind: varint, payload: bytes)

  datatype FrameError =
    | Incomplete
    | Http2Frame(kind: varint)
    | InvalidLength
    | InvalidSetting(error: SettingError)
    | ServerPushNotSupported(kind: varint)

  datatype FrameResult<+T> = Good(value: T) | Bad(error: FrameError) {
    predicate IsFailure() {
      Bad?
    }

    function PropagateFailure<U>(): FrameResult<U>
      requires Bad?
    {
      Bad(error)
    }

    function Extract(): T
      requires Good?
    {
      value
    }
  }

  predicate IsHttp2Only(kind: nat) {
    kind == 0x02 || kind == 0x06 || kind == 0x08 || kind == 0x09
  }

  predicate IsKnown(kind: nat) {
    kind in {0x00, 0x01, 0x03, 0x04, 0x05, 0x07, 0x0d}
  }

  /** The type that marks a WebTransport stream and has no length; it is never sent as a frame. */
  const WT_STREAM: nat := 0x41

  function Kind(f: Frame): varint {
    match f
    case DataFrame(_) => 0x00
    case HeadersFrame(_) => 0x01
    case SettingsFrame(_) => 0x04
    case GoawayFrame(_) => 0x07
    case MaxPushIdFrame(_) => 0x0d
    case UnknownFrame(kind, _) => kind
  }

  /** What the constructors guarantee: settings are genuine and occur once, and an unknown
      frame hides neither a known type nor one that only HTTP/2 may use. */
  predicate WellFormed(f: Frame) {
    match f
    case SettingsFrame(settings) => Payload(settings)
    case UnknownFrame(kind, _) => !IsKnown(kind) && !IsHttp2Only(kind)
    case _ => true
  }

  // ---- Writing ------------------------------------------------------------

  function EncodeSetting(s: Setting): (r: bytes)
    ensures |r| >= 2
  {
    V.Encode(AsWire(s).0) + V.Encode(AsWire(s).1)
  }

  function EncodeSettings(settings: seq<Setting>): bytes {
    if settings == [] then [] else EncodeSetting(settings[0]) + EncodeSettings(settings[1..])
  }

  function PayloadOf(f: Frame): bytes {
    match f
    case DataFrame(data) => data
    case HeadersFrame(section) => section
    case SettingsFrame(settings) => EncodeSettings(settings)
    case GoawayFrame(id) => V.Encode(id)
    case MaxPushIdFrame(id) => V.Encode(id)
    case UnknownFrame(_, payload) => payload
  }

  /** Type, length, payload; None when the length is no variable-length integer, or for the
      type that must not be sent. */
  function EncodeFrame(f: Frame): Option<bytes> {
    var payload := PayloadOf(f);
    if |payload| > V.MAX || (f.UnknownFrame? && f.kind == WT_STREAM) then None
    else Some(V.Encode(Kind(f)) + V.Encode(|payload|) + payload)
  }

  /** The length, computed without writing anything. */
  function EncodedFrameLength(f: Frame): Option<nat> {
    var n := |PayloadOf(f)|;
    if n > V.MAX then None else Some(V.Length(Kind(f)) + V.Length(n) + n)
  }

  // ---- Reading ------------------------------------------------------------

  datatype FrameHeader = FrameHeader(kind: varint, payloadLength: varint, headerLength: nat)

  function DecodeHeader(buf: bytes): (r: FrameResult<FrameHeader>)
    ensures r.Good? ==> r.value.headerLength <= |buf| && !IsHttp2Only(r.value.kind)
  {
    match V.Decode(buf)
    case None => Bad(Incomplete)
    case Some((kind, n)) =>
      match V.Decode(buf[n..])
      case None => Bad(Incomplete)
      case Some((length, m)) => if IsHttp2Only(kind) then Bad(Http2Frame(kind))
          else Good(FrameHeader(kind, length, n + m))
  }

  predicate HasId(settings: seq<Setting>, id: varint) {
    exists i :: 0 <= i < |settings| && IdOf(settings[i]) == id
  }

  /** The settings loop: a cut-off pair, a bad value or a second occurrence is an error. */
  function DecodeSettings(payload: bytes, done: seq<Setting>): FrameResult<seq<Setting>>
    decreases |payload|
  {
    if payload == [] then Good(done)
    else
      match V.Decode(payload)
      case None => Bad(InvalidLength)
      case Some((id, n)) =>
        match V.Decode(payload[n..])
        case None => Bad(InvalidLength)
        case Some((value, m)) =>
          match FromWire(id, value)
          case Rejected(e) => Bad(InvalidSetting(e))
          case Accepted(s) =>
            if HasId(done, IdOf(s)) then Bad(InvalidSetting(Settings.DuplicateId(IdOf(s))))
            else DecodeSettings(payload[n..][m..], done + [s])
  }

  /** A payload that is exactly one integer. */
  function DecodeSingle(payload: bytes): FrameResult<varint> {
    match V.Decode(payload)
    case None => Bad(InvalidLength)
    case Some((v, n)) => if n != |payload| then Bad(InvalidLength) else Good(v)
  }

  function DecodePayload(kind: varint, payload: bytes): FrameResult<Frame>
    requires !IsHttp2Only(kind)
  {
    if kind == 0x00 then Good(DataFrame(payload))
    else if kind == 0x01 then Good(HeadersFrame(payload))
    else if kind == 0x04 then
      var settings :- DecodeSettings(payload, []);
      Good(SettingsFrame(settings))
    else if kind == 0x07 then
      var id :- DecodeSingle(payload);
      Good(GoawayFrame(id))
    else if kind == 0x0d then
      var id :- DecodeSingle(payload);
      Good(MaxPushIdFrame(id))
    else if kind == 0x03 || kind == 0x05 then Bad(ServerPushNotSupported(kind))
    else Good(UnknownFrame(kind, payload))
  }

  function DecodeFrame(buf: bytes): (r: FrameResult<(Frame, nat)>)
    ensures r.Good? ==> r.value.1 <= |buf|
  {
    var header :- DecodeHeader(buf);
    var total := header.headerLength + header.payloadLength;
    if |buf| < total then Bad(Incomplete)
    else
      var f :- DecodePayload(header.kind, buf[header.headerLength..total]);
      Good((f, total))
  }

  // ---- Round trip -----------------------------------------------------------

  lemma HeaderRoundTrip(kind: varint, length: varint, rest: bytes)
    ensures DecodeHeader(V.Encode(kind) + V.Encode(length) + rest)
         == if IsHttp2Only(kind) then Bad(Http2Frame(kind))
            else Good(FrameHeader(kind, length, V.Length(kind) + V.Length(length)))
  {
    hide V.Encode, V.Decode;
    var a, b := V.Encode(kind), V.Encode(length);
    assert a + b + rest == a + (b + rest);
    V.RoundTrip(kind, b + rest);
    assert (a + (b + rest))[|a|..] == b + rest;
    V.RoundTrip(length, rest);
  }

  lemma PairRoundTrip(id: varint, value: varint, tail: bytes)
    ensures var a, b := V.Encode(id), V.Encode(value);
      && V.Decode(a + b + tail) == Some((id, |a|))
      && V.Decode((a + b + tail)[|a|..]) == Some((value, |b|))
      && (a + b + tail)[|a|..][|b|..] == tail
  {
    hide V.Encode, V.Decode;
    var a, b := V.Encode(id), V.Encode(value);
    V.RoundTrip(id, b + tail);
    assert a + b + tail == a + (b + tail);
    V.RoundTrip(value, tail);
    assert (a + (b + tail))[|a|..] == b + tail;
    assert (b + tail)[|b|..] == tail;
  }

  lemma {:induction false} SettingsRoundTrip(settings: seq<Setting>, done: seq<Setting>)
    requires Payload(done + settings)
    ensures DecodeSettings(EncodeSettings(settings), done) == Good(done + settings)
    decreases |settings|
  {
    hide V.Encode, V.Decode, FromWire, AsWire, Payload, HasId;
    if settings == [] {
      assert done + settings == done;
    } else {
      var s, rest := settings[0], settings[1..];
      PairRoundTrip(AsWire(s).0, AsWire(s).1, EncodeSettings(rest));
      HeadIsNew(done, settings);
      assert done + [s] + rest == done + settings;
      SettingsRoundTrip(rest, done + [s]);
    }
  }

  lemma HeadIsNew(done: seq<Setting>, settings: seq<Setting>)
    requires settings != [] && Payload(done + settings)
    ensures Genuine(settings[0]) && !HasId(done, IdOf(settings[0]))
  {
    hide FromWire, AsWire;
    assert (done + settings)[|done|] == settings[0];
    NotSeen(done, settings);
  }

  lemma NotSeen(done: seq<Setting>, settings: seq<Setting>)
    requires settings != [] && Unique(done + settings)
    ensures !HasId(done, IdOf(settings[0]))
  {
    var all := done + settings;
    forall i | 0 <= i < |done|
      ensures IdOf(done[i]) != IdOf(settings[0])
    {
      assert all[i] == done[i] && all[|done|] == settings[0];
    }
  }

  lemma SingleRoundTrip(v: varint)
    ensures DecodeSingle(V.Encode(v)) == Good(v)
  {
    V.RoundTrip(v, []);
    assert V.Encode(v) + [] == V.Encode(v);
  }

  lemma PayloadRoundTrip(f: Frame)
    requires WellFormed(f) && !IsHttp2Only(Kind(f))
    ensures DecodePayload(Kind(f), PayloadOf(f)) == Good(f)
  {
    hide V.Encode, V.Decode, DecodeSingle, DecodeSettings;
    match f {
      case SettingsFrame(settings) =>
        assert [] + settings == settings;
        SettingsRoundTrip(settings, []);
      case GoawayFrame(id) => SingleRoundTrip(id);
      case MaxPushIdFrame(id) => SingleRoundTrip(id);
      case _ =>
    }
  }

  /** A frame that can be written takes exactly the computed length, and is read back as it
      was written, whatever follows it. */
  lemma FrameRoundTrip(f: Frame, rest: bytes)
    requires WellFormed(f) && EncodeFrame(f).Some?
    ensures var code := EncodeFrame(f).value;
      && EncodedFrameLength(f) == Some(|code|)
      && DecodeFrame(code + rest) == Good((f, |code|))
  {
    hide V.Encode, V.Decode, DecodeHeader, DecodePayload, V.Length;
    var payload := PayloadOf(f);
    var a, b := V.Encode(Kind(f)), V.Encode(|payload|);
    assert a + b + payload + rest == a + b + (payload + rest);
    HeaderRoundTrip(Kind(f), |payload|, payload + rest);
    PayloadRoundTrip(f);
    assert (a + b + payload + rest)[|a + b|..|a + b| + |payload|] == payload;
  }

  /** What cannot be written: a payload longer than a length can say, and the type that marks a
      WebTransport stream, although that one has a length. */
  lemma WritableExactly(f: Frame)
    ensures EncodeFrame(f).Some? <==> |PayloadOf(f)| <= 0x3FFF_FFFF_FFFF_FFFF && Kind(f) != 0x41
    ensures EncodedFrameLength(f).Some? <==> |PayloadOf(f)| <= 0x3FFF_FFFF_FFFF_FFFF
  {
  }

  // ---- Partial and arbitrary input ----------------------------------------------

  lemma HeaderStable(buf: bytes, more: bytes)
    requires DecodeHeader(buf) != Bad(Incomplete)
    ensures DecodeHeader(buf + more) == DecodeHeader(buf)
  {
    hide V.Decode;
    V.Stable(buf, more);
    var n := V.Decode(buf).value.1;
    assert (buf + more)[n..] == buf[n..] + more;
    V.Stable(buf[n..], more);
  }

  lemma FrameStable(buf: bytes, more: bytes)
    requires DecodeFrame(buf) != Bad(Incomplete)
    ensures DecodeFrame(buf + more) == DecodeFrame(buf)
  {
    hide DecodeHeader, DecodePayload;
    HeaderStable(buf, more);
    var header := DecodeHeader(buf);
    if header.Good? {
      var total := header.value.headerLength + header.value.payloadLength;
      if total <= |buf| {
        assert (buf + more)[header.value.headerLength..total] == buf[header.value.headerLength..total];
      }
    }
  }

  /** No strict prefix of a frame is mistaken for anything but an incomplete frame. */
  lemma PartialFrame(f: Frame, part: bytes, more: bytes)
    requires WellFormed(f) && EncodeFrame(f) == Some(part + more) && more != []
    ensures DecodeFrame(part) == Bad(Incomplete)
  {
    hide DecodeFrame, EncodeFrame, EncodedFrameLength, WellFormed;
    FrameRoundTrip(f, []);
    assert part + more + [] == part + more;
    if DecodeFrame(part) != Bad(Incomplete) {
      FrameStable(part, more);
    }
  }

  lemma {:induction false} SettingsAreGenuine(payload: bytes, done: seq<Setting>)
    requires Payload(done) && DecodeSettings(payload, done).Good?
    ensures Payload(DecodeSettings(payload, done).value)
    decreases |payload|
  {
    hide V.Decode, FromWire, AsWire;
    if payload != [] {
      var (id, n) := V.Decode(payload).value;
      var (value, m) := V.Decode(payload[n..]).value;
      var s := FromWire(id, value).value;
      WireInverse(id, value);
      SettingsAreGenuine(payload[n..][m..], done + [s]);
    }
  }

  // ---- What exactly is accepted ---------------------------------------------------

  /** The payload is these settings, a pair of integers for each, to the last octet. */
  predicate Spells(payload: bytes, settings: seq<Setting>)
    decreases |settings|
  {
    if settings == [] then payload == []
    else
      var id := V.Decode(payload);
      && id.Some? && id.value.0 == AsWire(settings[0]).0
      && var value := V.Decode(payload[id.value.1..]);
        && value.Some? && value.value.0 == AsWire(settings[0]).1
        && Spells(payload[id.value.1 + value.value.1..], settings[1..])
  }

  /** Settings are accepted exactly when the payload spells them out, whatever the length of each
      integer, and every one is genuine and new. */
  lemma {:induction false} SettingsExactly(payload: bytes, done: seq<Setting>, settings: seq<Setting>)
    requires Payload(done)
    ensures DecodeSettings(payload, done) == Good(done + settings)
       <==> Spells(payload, settings) && Payload(done + settings)
    decreases |payload|
  {
    hide V.Decode, FromWire, AsWire;
    var all := done + settings;
    if settings == [] {
      assert all == done;
      if payload != [] && DecodeSettings(payload, done).Good? {
        SettingsGrow(payload, done);
      }
    } else if payload != [] && V.Decode(payload).Some? && V.Decode(payload[V.Decode(payload).value.1..]).Some? {
      var (id, n) := V.Decode(payload).value;
      var (value, m) := V.Decode(payload[n..]).value;
      assert payload[n..][m..] == payload[n + m..];
      WireInverse(id, value);
      if AsWire(settings[0]) == (id, value) && Payload(all) {
        PairExactly(id, value, done, settings);
      }
      if FromWire(id, value).Accepted? && !HasId(done, id) {
        var s := FromWire(id, value).value;
        OneMore(done, s);
        if s == settings[0] {
          assert done + [s] + settings[1..] == all;
          SettingsExactly(payload[n..][m..], done + [s], settings[1..]);
        } else if DecodeSettings(payload[n..][m..], done + [s]).Good? {
          SettingsKeep(payload[n..][m..], done + [s]);
          assert all[|done|] == settings[0];
        }
      }
    }
  }

  /** What is accepted for one pair is the setting with that wire form, if it is genuine. */
  lemma PairExactly(id: varint, value: varint, done: seq<Setting>, settings: seq<Setting>)
    requires settings != [] && AsWire(settings[0]) == (id, value) && Payload(done + settings)
    ensures FromWire(id, value) == Accepted(settings[0]) && !HasId(done, id)
  {
    HeadIsNew(done, settings);
  }

  lemma OneMore(done: seq<Setting>, s: Setting)
    requires Payload(done) && Genuine(s) && !HasId(done, IdOf(s))
    ensures Payload(done + [s])
  {
  }

  /** The settings loop only appends. */
  lemma {:induction false} SettingsKeep(payload: bytes, done: seq<Setting>)
    requires DecodeSettings(payload, done).Good?
    ensures done <= DecodeSettings(payload, done).value
    decreases |payload|
  {
    hide V.Decode, FromWire;
    if payload != [] {
      var (id, n) := V.Decode(payload).value;
      var (value, m) := V.Decode(payload[n..]).value;
      SettingsKeep(payload[n..][m..], done + [FromWire(id, value).value]);
    }
  }

  lemma SettingsGrow(payload: bytes, done: seq<Setting>)
    requires payload != [] && DecodeSettings(payload, done).Good?
    ensures |done| < |DecodeSettings(payload, done).value|
  {
    hide V.Decode, FromWire;
    var (id, n) := V.Decode(payload).value;
    var (value, m) := V.Decode(payload[n..]).value;
    SettingsKeep(payload[n..][m..], done + [FromWire(id, value).value]);
  }

  /** The payload is that of the frame, to the last octet. */
  predicate Carries(f: Frame, payload: bytes) {
    match f
    case DataFrame(data) => payload == data
    case HeadersFrame(section) => payload == section
    case SettingsFrame(settings) => Spells(payload, settings) && Payload(settings)
    case GoawayFrame(id) => V.Decode(payload) == Some((id, |payload|))
    case MaxPushIdFrame(id) => V.Decode(payload) == Some((id, |payload|))
    case UnknownFrame(kind, octets) => payload == octets && !IsKnown(kind) && !IsHttp2Only(kind)
  }

  lemma PayloadExactly(kind: varint, payload: bytes, f: Frame)
    requires !IsHttp2Only(kind)
    ensures DecodePayload(kind, payload) == Good(f) <==> Kind(f) == kind && Carries(f, payload)
  {
    hide V.Decode, DecodeSettings, Spells, Payload;
    if f.SettingsFrame? {
      assert [] + f.settings == f.settings;
      assert Payload([]) by { NoSettings(); }
      SettingsExactly(payload, [], f.settings);
    }
  }

  lemma NoSettings()
    ensures Payload([])
  {
  }

  /** Whatever octets arrive, a frame is accepted exactly when they begin with its type, the length
      of its payload and a payload that is its own to the last octet. */
  lemma AcceptedExactly(buf: bytes, f: Frame, total: nat)
    ensures DecodeFrame(buf) == Good((f, total)) <==>
      var kind := V.Decode(buf);
      && kind.Some? && kind.value.0 == Kind(f) && !IsHttp2Only(Kind(f))
      && var length := V.Decode(buf[kind.value.1..]);
        && length.Some? && total == kind.value.1 + length.value.1 + length.value.0 <= |buf|
        && Carries(f, buf[kind.value.1 + length.value.1..total])
  {
    hide V.Decode, DecodePayload, Carries, IsHttp2Only;
    var header := DecodeHeader(buf);
    if header.Good? {
      var start, end := header.value.headerLength, header.value.headerLength + header.value.payloadLength;
      if end <= |buf| {
        PayloadExactly(header.value.kind, buf[start..end], f);
      }
    }
  }

  // ---- What is refused ---------------------------------------------------------------

  lemma {:induction false} SettingsErrors(payload: bytes, done: seq<Setting>)
    ensures var r := DecodeSettings(payload, done);
      r.Bad? ==> r.error.InvalidLength? || r.error.InvalidSetting?
    decreases |payload|
  {
    hide V.Decode, FromWire;
    if payload != [] && V.Decode(payload).Some? && V.Decode(payload[V.Decode(payload).value.1..]).Some? {
      var (id, n) := V.Decode(payload).value;
      var (value, m) := V.Decode(payload[n..]).value;
      if FromWire(id, value).Accepted? {
        SettingsErrors(payload[n..][m..], done + [FromWire(id, value).value]);
      }
    }
  }

  /** More octets are awaited exactly while the header or the announced payload is not all there;
      every other refusal is final, and its cause depends on the type. */
  lemma RefusedExactly(buf: bytes)
    ensures DecodeFrame(buf) == Bad(Incomplete) <==>
      var kind := V.Decode(buf);
      || kind.None? || V.Decode(buf[kind.value.1..]).None?
      || (var length := V.Decode(buf[kind.value.1..]).value;
          !IsHttp2Only(kind.value.0) && |buf| < kind.value.1 + length.1 + length.0)
    ensures DecodeFrame(buf).Bad? && DecodeFrame(buf) != Bad(Incomplete) ==>
      match V.Decode(buf).value.0
      case 0x02 => DecodeFrame(buf) == Bad(Http2Frame(0x02))
      case 0x06 => DecodeFrame(buf) == Bad(Http2Frame(0x06))
      case 0x08 => DecodeFrame(buf) == Bad(Http2Frame(0x08))
      case 0x09 => DecodeFrame(buf) == Bad(Http2Frame(0x09))
      case 0x03 => DecodeFrame(buf) == Bad(ServerPushNotSupported(0x03))
      case 0x05 => DecodeFrame(buf) == Bad(ServerPushNotSupported(0x05))
      case 0x04 => DecodeFrame(buf) == Bad(InvalidLength) || DecodeFrame(buf).error.InvalidSetting?
      case 0x07 => DecodeFrame(buf) == Bad(InvalidLength)
      case 0x0d => DecodeFrame(buf) == Bad(InvalidLength)
      case _ => false
  {
    hide V.Decode, DecodeSettings;
    var header := DecodeHeader(buf);
    if header.Good? {
      var start, end := header.value.headerLength, header.value.headerLength + header.value.payloadLength;
      if end <= |buf| {
        SettingsErrors(buf[start..end], []);
      }
    }
  }

  /** Whatever octets arrive, a frame that is accepted is well formed: its settings have no
      duplicate and no HTTP/2 identifier, and its type is no type that must be refused. */
  lemma AcceptedIsWellFormed(buf: bytes)
    requires DecodeFrame(buf).Good?
    ensures var f := DecodeFrame(buf).value.0;
      && WellFormed(f) && !IsHttp2Only(Kind(f))
      && (f.SettingsFrame? ==> forall i :: 0 <= i < |f.settings| ==> !IsHttp2OnlyId(IdOf(f.settings[i])))
  {
    hide V.Decode, DecodeHeader, DecodeSettings, DecodeSingle;
    var header := DecodeHeader(buf).value;
    var payload := buf[header.headerLength..header.headerLength + header.payloadLength];
    if header.kind == 0x04 {
      SettingsAreGenuine(payload, []);
      var settings := DecodeSettings(payload, []).value;
      forall i | 0 <= i < |settings|
        ensures !IsHttp2OnlyId(IdOf(settings[i]))
      {
        assert Genuine(settings[i]);
      }
    }
  }
}
