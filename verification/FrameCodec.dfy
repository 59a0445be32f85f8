/** The procedures of `frame/encoder.rs` and `frame/decoder.rs`, proved against the codec's
    specification. */
module FrameCodec {
  import opened Bytes
  import opened Frames
  import opened Settings
  import V = VarInts

  /** `encoded_settings_payload_len` */
  method SettingsLength(settings: seq<Setting>) returns (total: nat)
    ensures total == |EncodeSettings(settings)|
  {
    hide AsWire, V.Encode;
    total := 0;
    for i := 0 to |settings|
      invariant total + |EncodeSettings(settings[i..])| == |EncodeSettings(settings)|
    {
      assert settings[i..][0] == settings[i] && settings[i..][1..] == settings[i + 1..];
      var (id, value) := AsWire(settings[i]);
      total := total + V.Length(id) + V.Length(value);
    }
  }

  method PayloadLength(f: Frame) returns (n: nat)
    ensures n == |PayloadOf(f)|
  {
    match f {
      case DataFrame(data) => n := |data|;
      case HeadersFrame(section) => n := |section|;
      case SettingsFrame(settings) => n := SettingsLength(settings);
      case GoawayFrame(id) => n := V.Length(id);
      case MaxPushIdFrame(id) => n := V.Length(id);
      case UnknownFrame(_, payload) => n := |payload|;
    }
  }

  method WriteHeader(buf: array<byte>, kind: varint, length: varint) returns (r: Option<nat>)
    modifies buf
    ensures WriteResult(old(buf[..]), buf[..], 0, V.Encode(kind) + V.Encode(length), r)
    ensures r.Some? ==> r.value <= buf.Length
    ensures r.None? ==> buf[..] == old(buf[..])
  {
    hide V.Encode, V.Length;
    if buf.Length < V.Length(kind) + V.Length(length) {
      return None;
    }
    ghost var a := buf[..];
    var n := V.EncodeAt(buf, 0, kind);
    ghost var b := buf[..];
    var m := V.EncodeAt(buf, n.value, length);
    WriteBoth(a, b, buf[..], 0, V.Encode(kind), V.Encode(length), n, m);
    return Both(n, m);
  }

  lemma {:induction false} EncodeSettingsConcat(a: seq<Setting>, b: seq<Setting>)
    ensures EncodeSettings(a + b) == EncodeSettings(a) + EncodeSettings(b)
  {
    hide V.Encode, AsWire;
    if a == [] {
      assert a + b == b;
    } else {
      assert (a + b)[1..] == a[1..] + b;
      EncodeSettingsConcat(a[1..], b);
    }
  }

  lemma OneSetting(s: Setting)
    ensures EncodeSettings([s]) == EncodeSetting(s)
  {
    hide EncodeSetting;
    assert [s][1..] == [];
  }

  /** The code of all settings around the `i`-th one. */
  lemma SettingsAround(settings: seq<Setting>, i: nat)
    requires i < |settings|
    ensures EncodeSettings(settings[..i + 1]) == EncodeSettings(settings[..i]) + EncodeSetting(settings[i])
    ensures EncodeSettings(settings) == EncodeSettings(settings[..i + 1]) + EncodeSettings(settings[i + 1..])
  {
    hide EncodeSetting, EncodeSettings;
    assert settings[..i + 1] == settings[..i] + [settings[i]];
    EncodeSettingsConcat(settings[..i], [settings[i]]);
    OneSetting(settings[i]);
    assert settings == settings[..i + 1] + settings[i + 1..];
    EncodeSettingsConcat(settings[..i + 1], settings[i + 1..]);
  }

  method WriteSettings(buf: array<byte>, start: nat, settings: seq<Setting>) returns (r: Option<nat>)
    requires start <= buf.Length
    modifies buf
    ensures WriteResult(old(buf[..]), buf[..], start, EncodeSettings(settings), r)
  {
    hide EncodeSetting, EncodeSettings, WriteResult;
    ghost var a := buf[..];
    var written: nat := 0;
    NoSettings(a, start, settings);
    for i := 0 to |settings|
      invariant start + written <= buf.Length
      invariant WriteResult(a, buf[..], start, EncodeSettings(settings[..i]), Some(written))
    {
      ghost var b := buf[..];
      var n := WritePair(buf, start + written, settings[i]);
      SettingsAround(settings, i);
      WriteBoth(a, b, buf[..], start, EncodeSettings(settings[..i]), EncodeSetting(settings[i]), Some(written), n);
      if n.None? {
        WriteMore(a, buf[..], start, EncodeSettings(settings[..i + 1]), EncodeSettings(settings[i + 1..]));
        return None;
      }
      WriteFits(b, buf[..], start + written, EncodeSetting(settings[i]), n);
      written := written + n.value;
    }
    assert settings[..|settings|] == settings;
    return Some(written);
  }

  lemma NoSettings(buf: bytes, start: nat, settings: seq<Setting>)
    requires start <= |buf|
    ensures WriteResult(buf, buf, start, EncodeSettings(settings[..0]), Some(0))
  {
    WriteNothing(buf, start);
  }

  method WritePair(buf: array<byte>, start: nat, s: Setting) returns (r: Option<nat>)
    requires start <= buf.Length
    modifies buf
    ensures WriteResult(old(buf[..]), buf[..], start, EncodeSetting(s), r)
  {
    hide V.Encode, AsWire;
    var (id, value) := AsWire(s);
    ghost var a := buf[..];
    var n := V.EncodeAt(buf, start, id);
    ghost var b := buf[..];
    var m: Option<nat> := None;
    if n.Some? {
      m := V.EncodeAt(buf, start + n.value, value);
    }
    WriteBoth(a, b, buf[..], start, V.Encode(id), V.Encode(value), n, m);
    return Both(n, m);
  }

  method WritePayload(buf: array<byte>, start: nat, f: Frame) returns (r: Option<nat>)
    requires start <= buf.Length
    modifies buf
    ensures WriteResult(old(buf[..]), buf[..], start, PayloadOf(f), r)
  {
    hide WriteResult, V.Encode, EncodeSettings;
    match f {
      case DataFrame(data) => r := CopyAt(buf, start, data);
      case HeadersFrame(section) => r := CopyAt(buf, start, section);
      case SettingsFrame(settings) => r := WriteSettings(buf, start, settings);
      case GoawayFrame(id) => r := V.EncodeAt(buf, start, id);
      case MaxPushIdFrame(id) => r := V.EncodeAt(buf, start, id);
      case UnknownFrame(_, payload) => r := CopyAt(buf, start, payload);
    }
  }

  /** `encode_frame`: a frame that cannot be written, or does not fit, leaves the buffer as it
      was; any other is written, whole, to its front. */
  method WriteFrame(buf: array<byte>, f: Frame) returns (r: Option<nat>)
    modifies buf
    ensures var code := EncodeFrame(f);
      && r == (if code.Some? && |code.value| <= buf.Length then Some(|code.value|) else None)
      && buf[..] == (if r.Some? then Splice(old(buf[..]), 0, code.value) else old(buf[..]))
  {
    hide V.Encode, PayloadOf, WriteResult, V.Length;
    var length := PayloadLength(f);
    if length > V.MAX || buf.Length < V.Length(Kind(f)) + V.Length(length) + length {
      return None;
    }
    if f.UnknownFrame? && f.kind == WT_STREAM {
      return None;
    }
    ghost var a := buf[..];
    var n := WriteHeader(buf, Kind(f), length);
    ghost var b := buf[..];
    var m: Option<nat> := None;
    if n.Some? {
      m := WritePayload(buf, n.value, f);
    }
    ghost var head, payload := V.Encode(Kind(f)) + V.Encode(length), PayloadOf(f);
    WriteBoth(a, b, buf[..], 0, head, payload, n, m);
    Written(a, buf[..], head + payload, Both(n, m));
    return Both(n, m);
  }

  lemma Written(before: bytes, after: bytes, code: bytes, r: Option<nat>)
    requires WriteResult(before, after, 0, code, r)
    ensures |code| <= |before| ==> r == Some(|code|) && after == Splice(before, 0, code)
  {
  }

  /** `decode_settings_frame` */
  method ReadSettings(payload: bytes) returns (r: FrameResult<seq<Setting>>)
    ensures r == DecodeSettings(payload, [])
  {
    hide V.Decode, FromWire, AsWire;
    var settings := new SettingsPayload();
    var offset := 0;
    while offset < |payload|
      invariant fresh(settings) && settings.Valid() && offset <= |payload|
      invariant DecodeSettings(payload, []) == DecodeSettings(payload[offset..], settings.settings)
    {
      var id := V.Decode(payload[offset..]);
      if id.None? {
        return Bad(InvalidLength);
      }
      ghost var rest := payload[offset..];
      offset := offset + id.value.1;
      assert payload[offset..] == rest[id.value.1..];
      var value := V.Decode(payload[offset..]);
      if value.None? {
        return Bad(InvalidLength);
      }
      offset := offset + value.value.1;
      assert payload[offset..] == rest[id.value.1..][value.value.1..];
      var setting := FromWire(id.value.0, value.value.0);
      if setting.Rejected? {
        return Bad(InvalidSetting(setting.error));
      }
      ghost var done := settings.settings;
      var duplicate := settings.Add(setting.value);
      assert HasId(done, IdOf(setting.value)) <==> duplicate.Some?;
      if duplicate.Some? {
        return Bad(InvalidSetting(duplicate.value));
      }
    }
    assert payload[offset..] == [];
    return Good(settings.settings);
  }
}
