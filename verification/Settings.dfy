/** SETTINGS parameters (section 7.2.4 of RFC 9114) and their wire form. */
module Settings {
  import opened Bytes
  import opened VarInts

  datatype Setting =
    | QpackMaxTableCapacity(value: varint)
    | MaxFieldSectionSize(value: varint)
    | QpackBlockedStreams(value: varint)
    | EnableConnectProtocol(on: bool)
    | H3Datagram(on: bool)
    | WtEnabled(value: varint)
    | WtEnabledDraft17(value: varint)
    | WtMaxSessionsDraft14(value: varint)
    | EnableWebTransportDraft02(on: bool)
    | WebTransportMaxSessionsDraft07(value: varint)
    | WtInitialMaxData(value: varint)
    | WtInitialMaxStreamsUni(value: varint)
    | WtInitialMaxStreamsBidi(value: varint)
    | Unknown(id: varint, value: varint)

  datatype SettingError =
    | Http2OnlyId(id: varint)
    | InvalidBooleanValue(id: varint, value: varint)
    | DuplicateId(id: varint)

  datatype SettingResult<+T> = Accepted(value: T) | Rejected(error: SettingError)

  predicate IsHttp2OnlyId(id: nat) {
    2 <= id <= 5
  }

  function CheckBool(id: varint, value: varint): SettingResult<bool> {
    if value == 0 then Accepted(false) else if value == 1 then Accepted(true)
        else Rejected(InvalidBooleanValue(id, value))
  }

  function FromWire(id: varint, value: varint): SettingResult<Setting> {
    if IsHttp2OnlyId(id) then Rejected(Http2OnlyId(id))
    else if id == 0x01 then Accepted(QpackMaxTableCapacity(value))
    else if id == 0x06 then Accepted(MaxFieldSectionSize(value))
    else if id == 0x07 then Accepted(QpackBlockedStreams(value))
    else if id == 0x08 then (match CheckBool(id, value) case Accepted(b) => Accepted(EnableConnectProtocol(b))
                             case Rejected(e) => Rejected(e))
    else if id == 0x33 then (match CheckBool(id, value) case Accepted(b) => Accepted(H3Datagram(b))
                             case Rejected(e) => Rejected(e))
    else if id == 0x2c7cf000 then Accepted(WtEnabled(value))
    else if id == 0x20b8933b then Accepted(WtEnabledDraft17(value))
    else if id == 0x14e9cd29 then Accepted(WtMaxSessionsDraft14(value))
    else if id == 0x2b603742 then (match CheckBool(id, value) case Accepted(b) => Accepted(EnableWebTransportDraft02(b))
                                   case Rejected(e) => Rejected(e))
    else if id == 0xc671706a then Accepted(WebTransportMaxSessionsDraft07(value))
    else if id == 0x2b61 then Accepted(WtInitialMaxData(value))
    else if id == 0x2b64 then Accepted(WtInitialMaxStreamsUni(value))
    else if id == 0x2b65 then Accepted(WtInitialMaxStreamsBidi(value))
    else Accepted(Unknown(id, value))
  }

  function BoolValue(b: bool): varint {
    if b then 1 else 0
  }

  function AsWire(s: Setting): (varint, varint) {
    match s
    case QpackMaxTableCapacity(v) => (0x01, v)
    case MaxFieldSectionSize(v) => (0x06, v)
    case QpackBlockedStreams(v) => (0x07, v)
    case EnableConnectProtocol(b) => (0x08, BoolValue(b))
    case H3Datagram(b) => (0x33, BoolValue(b))
    case WtEnabled(v) => (0x2c7cf000, v)
    case WtEnabledDraft17(v) => (0x20b8933b, v)
    case WtMaxSessionsDraft14(v) => (0x14e9cd29, v)
    case EnableWebTransportDraft02(b) => (0x2b603742, BoolValue(b))
    case WebTransportMaxSessionsDraft07(v) => (0xc671706a, v)
    case WtInitialMaxData(v) => (0x2b61, v)
    case WtInitialMaxStreamsUni(v) => (0x2b64, v)
    case WtInitialMaxStreamsBidi(v) => (0x2b65, v)
    case Unknown(id, v) => (id, v)
  }

  function IdOf(s: Setting): varint {
    AsWire(s).0
  }

  /** What `from_wire` guarantees: an unknown setting hides neither a known identifier nor one
      that only HTTP/2 may use. */
  predicate Genuine(s: Setting) {
    FromWire(AsWire(s).0, AsWire(s).1) == Accepted(s)
  }

  /** Reading and writing are inverse: everything read is written back as it was, everything
      read is genuine, and only the three boolean settings and the HTTP/2 identifiers are
      ever refused. */
  lemma WireInverse(id: varint, value: varint)
    ensures FromWire(id, value).Accepted? ==>
        AsWire(FromWire(id, value).value) == (id, value) && Genuine(FromWire(id, value).value)
    ensures FromWire(id, value).Rejected? <==> IsHttp2OnlyId(id) || (id in {0x08, 0x33, 0x2b603742} && value > 1)
  {
  }

  // ---- Payloads -------------------------------------------------------------

  predicate Unique(settings: seq<Setting>) {
    forall i, j :: 0 <= i < j < |settings| ==> IdOf(settings[i]) != IdOf(settings[j])
  }

  predicate Payload(settings: seq<Setting>) {
    Unique(settings) && forall i :: 0 <= i < |settings| ==> Genuine(settings[i])
  }

  function Ids(settings: seq<Setting>): set<varint> {
    set s | s in settings :: IdOf(s)
  }

  /** `SettingsPayload`: the settings in order, and the identifiers seen so far. */
  class SettingsPayload {
    var settings: seq<Setting>
    var seenIds: set<varint>

    ghost predicate Valid()
      reads this
    {
      Unique(settings) && seenIds == Ids(settings)
    }

    constructor ()
      ensures Valid() && settings == []
    {
      settings, seenIds := [], {};
    }

    /** A duplicate identifier is refused and leaves the payload as it was. */
    method Add(s: Setting) returns (error: Option<SettingError>)
      requires Valid()
      modifies this
      ensures Valid()
      ensures error.Some? <==> exists i :: 0 <= i < |old(settings)| && IdOf(old(settings)[i]) == IdOf(s)
      ensures error == if error.Some? then Some(DuplicateId(IdOf(s))) else None
      ensures settings == if error.Some? then old(settings) else old(settings) + [s]
    {
      hide AsWire;
      var id := IdOf(s);
      if id in seenIds {
        return Some(DuplicateId(id));
      }
      seenIds := seenIds + {id};
      settings := settings + [s];
      return None;
    }
  }
}
