/**
 * The stored record types of the collector (`TrafficLog`, `Alert`), the JSON
 * shape in which records arrive, and the validation that the model serializer
 * applies to an incoming record before it is saved.
 */
module Schema {
  import opened Wrappers
  import opened Text

  const SOURCE_IP_MAX_LENGTH: nat := 50
  const DEST_IP_MAX_LENGTH: nat := 50
  const PROTOCOL_MAX_LENGTH: nat := 10
  const TCP_FLAGS_MAX_LENGTH: nat := 20
  const ALERT_MESSAGE_MAX_LENGTH: nat := 255
  const SEVERITY_MAX_LENGTH: nat := 20
  const INTEGER_MAX_STRING_LENGTH: nat := 1000
  const DEFAULT_SEVERITY: string := "Low"

  /** A JSON scalar as a field of an incoming record. */
  datatype Value = VInt(i: int) | VBool(b: bool) | VStr(s: string) | VNull

  /** One element of an incoming `packets` list: a JSON object, or anything else. */
  datatype RawPacket = Object(fields: map<string, Value>) | NonObject

  /** A persisted traffic record; `id` is assigned when it is saved. */
  datatype TrafficLog = TrafficLog(
    id: nat,
    sourceIp: string,
    destIp: string,
    sourcePort: int,
    destPort: int,
    protocol: string,
    packetSize: int,
    tcpFlags: Option<string>)

  /** A persisted alert; `trafficLog` is the optional id of the record it is about. */
  datatype Alert = Alert(id: nat, message: string, severity: string, trafficLog: Option<nat>)

  /** Text a required character column accepts: not blank, within its length, no NUL. */
  predicate RequiredText(s: string, maxLength: nat)
  {
    0 < |s| <= maxLength && '\0' !in s
  }

  /** Text an optional, blank-allowed character column accepts. */
  predicate OptionalText(s: string, maxLength: nat)
  {
    |s| <= maxLength && '\0' !in s
  }

  /** The column constraints of `TrafficLog`; ports and size carry no sign constraint. */
  predicate ValidTrafficLog(log: TrafficLog)
  {
    && RequiredText(log.sourceIp, SOURCE_IP_MAX_LENGTH)
    && RequiredText(log.destIp, DEST_IP_MAX_LENGTH)
    && RequiredText(log.protocol, PROTOCOL_MAX_LENGTH)
    && (log.tcpFlags.Some? ==> OptionalText(log.tcpFlags.value, TCP_FLAGS_MAX_LENGTH))
  }

  /** No text of the record has surrounding whitespace, as validation leaves them. */
  predicate StrippedTexts(log: TrafficLog)
  {
    && Trimmed(log.sourceIp) && Trimmed(log.destIp) && Trimmed(log.protocol)
    && (log.tcpFlags.Some? ==> Trimmed(log.tcpFlags.value))
  }

  /** The column constraints of `Alert`. */
  predicate ValidAlert(alert: Alert)
  {
    RequiredText(alert.message, ALERT_MESSAGE_MAX_LENGTH) && RequiredText(alert.severity, SEVERITY_MAX_LENGTH)
  }

  /** A character field's text: strings as they are, integers as `str()` writes them. */
  function TextOf(v: Value): Option<string>
  {
    match v
    case VStr(s) => Some(s)
    case VInt(n) => Some(IntToString(n))
    case _ => None
  }

  /**
   * A character field's value, present and not null. The text is stripped of
   * surrounding whitespace first. A text that is blank after stripping is refused,
   * or taken as `""` where the column allows blank. Otherwise the stripped text
   * must fit `maxLength` and hold no NUL, and it is what is stored.
   */
  function CharValue(v: Value, maxLength: nat, allowBlank: bool): (r: Option<string>)
    ensures r.Some? ==> OptionalText(r.value, maxLength) && (allowBlank || r.value != [])
  {
    match TextOf(v)
    case None => None
    case Some(s) =>
      var t := Strip(s);
      if t == [] then (if allowBlank then Some("") else None)
      else if |t| <= maxLength && '\0' !in t then Some(t)
      else None
  }

  /**
   * A field is accepted exactly when its text, stripped, passes the column's
   * tests; the stripped text is what is kept, so it has no surrounding whitespace.
   */
  lemma CharValueSpec(v: Value, maxLength: nat, allowBlank: bool)
    ensures var r := CharValue(v, maxLength, allowBlank);
            && (r.Some? <==> TextOf(v).Some? && OptionalText(Strip(TextOf(v).value), maxLength)
                             && (allowBlank || Strip(TextOf(v).value) != []))
            && (r.Some? ==> r.value == Strip(TextOf(v).value) && Trimmed(r.value))
  {
    if TextOf(v).Some? {
      StripSpec(TextOf(v).value);
    }
  }

  /** A required character field of at most `maxLength` characters. */
  function RequiredChar(fields: map<string, Value>, key: string, maxLength: nat): (r: Option<string>)
    ensures r.Some? ==> RequiredText(r.value, maxLength)
  {
    if key !in fields then None else CharValue(fields[key], maxLength, false)
  }

  /** A required text that is already stripped is stored exactly as sent. */
  lemma StrippedTextStored(fields: map<string, Value>, key: string, maxLength: nat, s: string)
    requires key in fields && fields[key] == VStr(s)
    requires Trimmed(s) && RequiredText(s, maxLength)
    ensures RequiredChar(fields, key, maxLength) == Some(s)
  {
    StripTrimmed(s);
  }

  /** A character field that may be missing, null or blank. */
  function OptionalChar(fields: map<string, Value>, key: string, maxLength: nat): (r: Option<Option<string>>)
    ensures r.Some? && r.value.Some? ==> OptionalText(r.value.value, maxLength)
  {
    if key !in fields || fields[key] == VNull then Some(None)
    else match CharValue(fields[key], maxLength, true)
      case Some(t) => Some(Some(t))
      case None => None
  }

  /** Zeros, then only whitespace, up to the end of `s`. */
  predicate ZerosThenSpaces(s: string)
  {
    if s != [] && s[0] == '0' then ZerosThenSpaces(s[1..]) else AllSpace(s)
  }

  /**
   * `re.sub(r'\.0*\s*$', '', s)`: the first `.` that is followed only by
   * zeros and then whitespace is removed, along with everything after it.
   */
  function DropDecimalSuffix(s: string): (r: string)
    ensures |r| <= |s|
  {
    if s == [] then []
    else if s[0] == '.' && ZerosThenSpaces(s[1..]) then []
    else [s[0]] + DropDecimalSuffix(s[1..])
  }

  /**
   * An integer field's value, present and not null. An integer is taken as it
   * is; a string of at most 1000 characters is read by `int()` once a decimal
   * point with only zeros after it is dropped; anything else is refused.
   */
  function IntegerValue(v: Value): Option<int>
  {
    match v
    case VInt(n) => Some(n)
    case VStr(s) => if |s| > INTEGER_MAX_STRING_LENGTH then None else ParseInt(DropDecimalSuffix(s))
    case _ => None
  }

  /** A required integer field. */
  function RequiredInt(fields: map<string, Value>, key: string): Option<int>
  {
    if key !in fields then None else IntegerValue(fields[key])
  }

  /** Text without a `.` passes through the decimal-suffix removal unchanged. */
  lemma {:induction false} NoPointKept(s: string)
    requires '.' !in s
    ensures DropDecimalSuffix(s) == s
  {
    if s != [] {
      assert s[0] != '.';
      assert '.' !in s[1..] by {
        forall i | 0 <= i < |s| - 1 ensures s[1..][i] != '.' { assert s[1..][i] == s[i + 1]; }
      }
      NoPointKept(s[1..]);
    }
  }

  /** The suffix removal stops only after the first `.`. */
  lemma {:induction false} DropAfterNoPoint(a: string, b: string)
    requires '.' !in a
    ensures DropDecimalSuffix(a + b) == a + DropDecimalSuffix(b)
  {
    if a != [] {
      assert (a + b)[0] == a[0] && (a + b)[1..] == a[1..] + b;
      assert '.' !in a[1..] by {
        forall i | 0 <= i < |a| - 1 ensures a[1..][i] != '.' { assert a[1..][i] == a[i + 1]; }
      }
      DropAfterNoPoint(a[1..], b);
    } else {
      assert a + b == b;
    }
  }

  /** A run of `k` zeros. */
  function Zeros(k: nat): (z: string)
    ensures |z| == k
  {
    if k == 0 then "" else Zeros(k - 1) + "0"
  }

  /** A run of zeros is zeros followed by no whitespace. */
  lemma {:induction false} ZerosOnly(k: nat)
    ensures ZerosThenSpaces(Zeros(k))
  {
    if k > 0 {
      var z := Zeros(k);
      assert z == "0" + Zeros(k - 1) by { ZerosFront(k); }
      ZerosOnly(k - 1);
    }
  }

  /** A run of zeros built from the back also starts with a zero. */
  lemma {:induction false} ZerosFront(k: nat)
    requires k > 0
    ensures Zeros(k) == "0" + Zeros(k - 1)
  {
    if k > 1 {
      ZerosFront(k - 1);
    }
  }

  /** An integer given as a JSON integer reads as the one its decimal text would give. */
  lemma IntegerValueOfInt(n: int)
    ensures IntegerValue(VInt(n)) == ParseInt(DropDecimalSuffix(IntToString(n)))
  {
    var s := IntToString(n);
    assert '.' !in s;
    NoPointKept(s);
    IntToStringRoundTrip(n);
  }

  /** The decimal text of an integer followed by a point and zeros reads as that integer. */
  lemma ZeroFractionAccepted(n: int, k: nat)
    requires |IntToString(n)| + 1 + k <= INTEGER_MAX_STRING_LENGTH
    ensures IntegerValue(VStr(IntToString(n) + "." + Zeros(k))) == Some(n)
  {
    var s, tail := IntToString(n), "." + Zeros(k);
    assert '.' !in s;
    assert s + "." + Zeros(k) == s + tail;
    DropAfterNoPoint(s, tail);
    assert tail[1..] == Zeros(k);
    ZerosOnly(k);
    assert DropDecimalSuffix(tail) == [];
    assert s + [] == s;
    IntToStringRoundTrip(n);
  }

  /** A string of more than 1000 characters is refused, whatever it holds. */
  lemma LongIntegerStringRefused(s: string)
    requires |s| > INTEGER_MAX_STRING_LENGTH
    ensures IntegerValue(VStr(s)) == None
  {
  }

  /** `"5.0"` and `"5."` are read as 5. */
  lemma ZeroFractionStrings()
    ensures IntegerValue(VStr("5.0")) == Some(5)
    ensures IntegerValue(VStr("5.")) == Some(5)
  {
    assert IntToString(5) == "5";
    ZeroFractionAccepted(5, 1);
    assert "5" + "." + Zeros(1) == "5.0";
    ZeroFractionAccepted(5, 0);
    assert "5" + "." + Zeros(0) == "5.";
  }

  /**
   * Validate an incoming record and build the row it is saved as, with the
   * given id; `None` where validation fails. Keys `id` and `timestamp` are
   * read-only and ignored, as are unknown keys.
   */
  function Deserialize(p: RawPacket, id: nat): (r: Option<TrafficLog>)
    ensures r.Some? ==> ValidTrafficLog(r.value) && r.value.id == id
    ensures p.NonObject? ==> r.None?
  {
    match p
    case NonObject => None
    case Object(f) =>
      var sourceIp := RequiredChar(f, "source_ip", SOURCE_IP_MAX_LENGTH);
      var destIp := RequiredChar(f, "dest_ip", DEST_IP_MAX_LENGTH);
      var sourcePort := RequiredInt(f, "source_port");
      var destPort := RequiredInt(f, "dest_port");
      var protocol := RequiredChar(f, "protocol", PROTOCOL_MAX_LENGTH);
      var packetSize := RequiredInt(f, "packet_size");
      var tcpFlags := OptionalChar(f, "tcp_flags", TCP_FLAGS_MAX_LENGTH);
      if sourceIp.Some? && destIp.Some? && sourcePort.Some? && destPort.Some?
         && protocol.Some? && packetSize.Some? && tcpFlags.Some?
      then
        Some(TrafficLog(id, sourceIp.value, destIp.value, sourcePort.value, destPort.value,
                        protocol.value, packetSize.value, tcpFlags.value))
      else
        None
  }

  /** A saved record's texts are the stripped texts of the fields, so none has surrounding whitespace. */
  lemma DeserializeStripped(p: RawPacket, id: nat)
    ensures Deserialize(p, id).Some? ==> StrippedTexts(Deserialize(p, id).value)
  {
    if p.Object? {
      var f := p.fields;
      if "source_ip" in f { CharValueSpec(f["source_ip"], SOURCE_IP_MAX_LENGTH, false); }
      if "dest_ip" in f { CharValueSpec(f["dest_ip"], DEST_IP_MAX_LENGTH, false); }
      if "protocol" in f { CharValueSpec(f["protocol"], PROTOCOL_MAX_LENGTH, false); }
      if "tcp_flags" in f { CharValueSpec(f["tcp_flags"], TCP_FLAGS_MAX_LENGTH, true); }
    }
  }

  /** The serialized form of a stored record, as it is broadcast. */
  function Serialize(log: TrafficLog): RawPacket
  {
    Object(map[
      "id" := VInt(log.id),
      "source_ip" := VStr(log.sourceIp),
      "dest_ip" := VStr(log.destIp),
      "source_port" := VInt(log.sourcePort),
      "dest_port" := VInt(log.destPort),
      "protocol" := VStr(log.protocol),
      "packet_size" := VInt(log.packetSize),
      "tcp_flags" := if log.tcpFlags.Some? then VStr(log.tcpFlags.value) else VNull])
  }

  /** A record as validation stores it survives serialization and validation unchanged. */
  lemma SerializeRoundTrip(log: TrafficLog)
    requires ValidTrafficLog(log) && StrippedTexts(log)
    ensures Deserialize(Serialize(log), log.id) == Some(log)
  {
    var f := Serialize(log).fields;
    StripTrimmed(log.sourceIp);
    StripTrimmed(log.destIp);
    StripTrimmed(log.protocol);
    if log.tcpFlags.Some? {
      StripTrimmed(log.tcpFlags.value);
    }
    assert RequiredChar(f, "source_ip", SOURCE_IP_MAX_LENGTH) == Some(log.sourceIp);
    assert RequiredChar(f, "dest_ip", DEST_IP_MAX_LENGTH) == Some(log.destIp);
    assert RequiredChar(f, "protocol", PROTOCOL_MAX_LENGTH) == Some(log.protocol);
    assert RequiredInt(f, "source_port") == Some(log.sourcePort);
    assert RequiredInt(f, "dest_port") == Some(log.destPort);
    assert RequiredInt(f, "packet_size") == Some(log.packetSize);
    assert OptionalChar(f, "tcp_flags", TCP_FLAGS_MAX_LENGTH) == Some(log.tcpFlags);
  }

  /**
   * A record whose source address is longer than 50 characters once stripped,
   * or blank once stripped, is refused, whatever else it holds.
   */
  lemma LongSourceIpRefused(p: RawPacket, id: nat)
    requires p.Object? && "source_ip" in p.fields && p.fields["source_ip"].VStr?
    requires |Strip(p.fields["source_ip"].s)| > SOURCE_IP_MAX_LENGTH || Strip(p.fields["source_ip"].s) == []
    ensures Deserialize(p, id) == None
  {
    assert RequiredChar(p.fields, "source_ip", SOURCE_IP_MAX_LENGTH) == None;
  }

  /** A source address of 50 characters padded with a space on each side is stored without the padding. */
  lemma PaddedSourceIpStored(address: string)
    requires |address| == SOURCE_IP_MAX_LENGTH && Trimmed(address) && '\0' !in address
    ensures RequiredChar(map["source_ip" := VStr(" " + address + " ")], "source_ip", SOURCE_IP_MAX_LENGTH) == Some(address)
  {
    var padded := " " + address + " ";
    assert TrimStart(padded) == address + " " by {
      assert padded[1..] == address + " ";
      assert !IsSpace((address + " ")[0]);
    }
    assert TrimEnd(address + " ") == address by {
      assert (address + " ")[..|address|] == address;
      assert !IsSpace(address[|address| - 1]);
    }
  }

  /** `TrafficLog.__str__`: `"src:sport -> dst:dport"`. */
  function RenderTrafficLog(log: TrafficLog): string
  {
    log.sourceIp + ":" + IntToString(log.sourcePort) + " -> " + log.destIp + ":" + IntToString(log.destPort)
  }

  /**
   * The rendering starts with the source address, and the text between the
   * first separator after it and the arrow reads back as the source port.
   */
  lemma RenderedSourcePort(log: TrafficLog)
    ensures var r := RenderTrafficLog(log);
            var start := |log.sourceIp| + 1;
            var stop := start + |IntToString(log.sourcePort)|;
            && stop + 4 <= |r|
            && r[..|log.sourceIp|] == log.sourceIp
            && r[|log.sourceIp|] == ':'
            && r[stop..stop + 4] == " -> "
            && ParseInt(r[start..stop]) == Some(log.sourcePort)
  {
    var r := RenderTrafficLog(log);
    var start := |log.sourceIp| + 1;
    var stop := start + |IntToString(log.sourcePort)|;
    assert r[start..stop] == IntToString(log.sourcePort);
    assert r[stop..stop + 4] == " -> ";
    IntToStringRoundTrip(log.sourcePort);
  }

  /**
   * Validation of an `Alert` built from a message and a record id, with the
   * default severity; the message is stripped of surrounding whitespace first.
   */
  function NewAlert(message: string, trafficLog: nat, id: nat): (r: Option<Alert>)
    ensures r.Some? <==> RequiredText(Strip(message), ALERT_MESSAGE_MAX_LENGTH)
    ensures r.Some? ==> ValidAlert(r.value) && r.value.id == id
                        && r.value.severity == DEFAULT_SEVERITY && r.value.trafficLog == Some(trafficLog)
                        && r.value.message == Strip(message)
  {
    var text := Strip(message);
    if RequiredText(text, ALERT_MESSAGE_MAX_LENGTH) then
      Some(Alert(id, text, DEFAULT_SEVERITY, Some(trafficLog)))
    else
      None
  }
}
