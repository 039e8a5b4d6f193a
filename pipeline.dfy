/**
 * The sensor and the collector together: the JSON object the sensor posts
 * for each record, what the collector's validation and feature extraction
 * make of it, and when alert indices line up with the saved records.
 */
module EndToEnd {
  import opened Wrappers
  import opened Text
  import opened Schema
  import opened MlModel
  import opened Views
  import Interceptor

  /** The JSON object the sensor posts for one record. */
  function Payload(rec: Interceptor.PacketRecord): RawPacket
  {
    Object(map[
      "source_ip" := VStr(rec.sourceIp),
      "dest_ip" := VStr(rec.destIp),
      "packet_size" := VInt(rec.packetSize),
      "protocol" := VStr(rec.protocol),
      "source_port" := VInt(rec.sourcePort),
      "dest_port" := VInt(rec.destPort),
      "tcp_flags" := VStr(rec.tcpFlags)])
  }

  /** The `packets` list of one posted batch. */
  function Payloads(recs: seq<Interceptor.PacketRecord>): (r: seq<RawPacket>)
    ensures |r| == |recs|
    ensures forall j :: 0 <= j < |recs| ==> r[j] == Payload(recs[j])
  {
    seq(|recs|, j requires 0 <= j < |recs| => Payload(recs[j]))
  }

  /**
   * The feature row of a sensor record: its ports and size, whether it was
   * classified TCP or UDP, and whether the TCP header had SYN or FIN set.
   */
  lemma SensorRecordFeatures(p: Interceptor.Packet)
    requires p.ip.Some?
    ensures var rec := Interceptor.Normalize(p).value;
            var hasTcp := p.tcp.Some?;
            FeatureRow(Payload(rec)) == Some([
              rec.sourcePort, rec.destPort, p.length,
              if hasTcp then 1 else 0,
              if !hasTcp && p.udp.Some? then 1 else 0,
              if hasTcp && p.tcp.value.flags.syn then 1 else 0,
              if hasTcp && p.tcp.value.flags.fin then 1 else 0])
  {
    Interceptor.NormalizeClassifies(p);
    if p.tcp.Some? {
      Interceptor.FlagStringLetters(p.tcp.value.flags);
    }
  }

  /**
   * Validation of a posted record checks its four text fields once each is
   * stripped, and stores them stripped; the integers always pass.
   */
  lemma PayloadSaved(rec: Interceptor.PacketRecord, id: nat)
    ensures var saved := Deserialize(Payload(rec), id);
            && (saved.Some? <==> && RequiredText(Strip(rec.sourceIp), SOURCE_IP_MAX_LENGTH)
                                 && RequiredText(Strip(rec.destIp), DEST_IP_MAX_LENGTH)
                                 && RequiredText(Strip(rec.protocol), PROTOCOL_MAX_LENGTH)
                                 && OptionalText(Strip(rec.tcpFlags), TCP_FLAGS_MAX_LENGTH))
            && (saved.Some? ==> saved.value == TrafficLog(id, Strip(rec.sourceIp), Strip(rec.destIp),
                                                          rec.sourcePort, rec.destPort, Strip(rec.protocol),
                                                          rec.packetSize, Some(Strip(rec.tcpFlags))))
  {
    var f := Payload(rec).fields;
    assert f["source_ip"] == VStr(rec.sourceIp) && f["dest_ip"] == VStr(rec.destIp);
    assert f["protocol"] == VStr(rec.protocol) && f["tcp_flags"] == VStr(rec.tcpFlags);
    assert RequiredInt(f, "source_port") == Some(rec.sourcePort);
    assert RequiredInt(f, "dest_port") == Some(rec.destPort);
    assert RequiredInt(f, "packet_size") == Some(rec.packetSize);
    CharValueSpec(VStr(rec.sourceIp), SOURCE_IP_MAX_LENGTH, false);
    CharValueSpec(VStr(rec.destIp), DEST_IP_MAX_LENGTH, false);
    CharValueSpec(VStr(rec.protocol), PROTOCOL_MAX_LENGTH, false);
    CharValueSpec(VStr(rec.tcpFlags), TCP_FLAGS_MAX_LENGTH, true);
  }

  /** The protocol and flag fields of a sensor record always pass validation, and stripping leaves them as they are. */
  lemma SensorFieldsValid(p: Interceptor.Packet)
    requires p.ip.Some?
    ensures var rec := Interceptor.Normalize(p).value;
            && RequiredText(rec.protocol, PROTOCOL_MAX_LENGTH) && OptionalText(rec.tcpFlags, TCP_FLAGS_MAX_LENGTH)
            && Strip(rec.protocol) == rec.protocol && Strip(rec.tcpFlags) == rec.tcpFlags
  {
    Interceptor.NormalizeClassifies(p);
    var rec := Interceptor.Normalize(p).value;
    if p.tcp.Some? {
      var flags := rec.tcpFlags;
      Interceptor.FlagStringLetters(p.tcp.value.flags);
      if flags != [] {
        assert flags[0] in flags && flags[|flags| - 1] in flags;
      }
    }
    StripTrimmed(rec.protocol);
    StripTrimmed(rec.tcpFlags);
  }

  /**
   * The collector saves a sensor record exactly when both of its addresses,
   * once stripped, are non-empty, NUL-free and at most 50 characters; the
   * saved row holds the stripped addresses and the record's other fields.
   */
  lemma SensorRecordSaved(p: Interceptor.Packet, id: nat)
    requires p.ip.Some?
    ensures var rec := Interceptor.Normalize(p).value;
            var saved := Deserialize(Payload(rec), id);
            && (saved.Some? <==> RequiredText(Strip(rec.sourceIp), SOURCE_IP_MAX_LENGTH)
                                 && RequiredText(Strip(rec.destIp), DEST_IP_MAX_LENGTH))
            && (saved.Some? ==> saved.value == TrafficLog(id, Strip(rec.sourceIp), Strip(rec.destIp),
                                                          rec.sourcePort, rec.destPort, rec.protocol,
                                                          rec.packetSize, Some(rec.tcpFlags)))
  {
    SensorFieldsValid(p);
    PayloadSaved(Interceptor.Normalize(p).value, id);
  }

  /**
   * A sensor batch whose addresses all pass validation is saved whole, and
   * every one of its records yields a feature row, so the feature-row index
   * the detector flags names the saved record of the same packet.
   */
  lemma SensorBatchAligned(recs: seq<Interceptor.PacketRecord>, ps: seq<Interceptor.Packet>, firstId: nat)
    requires |recs| == |ps|
    requires forall j :: 0 <= j < |ps| ==> ps[j].ip.Some? && recs[j] == Interceptor.Normalize(ps[j]).value
    requires forall j :: 0 <= j < |recs| ==>
               RequiredText(Strip(recs[j].sourceIp), SOURCE_IP_MAX_LENGTH)
               && RequiredText(Strip(recs[j].destIp), DEST_IP_MAX_LENGTH)
    ensures var batch := Payloads(recs);
            && |SaveAll(batch, firstId)| == |Features(batch)| == |recs|
            && forall j :: 0 <= j < |recs| ==>
                 SaveAll(batch, firstId)[j] == TrafficLog(firstId + j, Strip(recs[j].sourceIp), Strip(recs[j].destIp),
                                                          recs[j].sourcePort, recs[j].destPort, recs[j].protocol,
                                                          recs[j].packetSize, Some(recs[j].tcpFlags))
  {
    var batch := Payloads(recs);
    forall j | 0 <= j < |batch|
      ensures Accepted(batch[j]) && FeatureRow(batch[j]).Some?
    {
      SensorRecordSaved(ps[j], 0);
      SensorRecordFeatures(ps[j]);
    }
    AlignedWhenAllAccepted(batch, firstId);
    forall j | 0 <= j < |recs|
      ensures SaveAll(batch, firstId)[j] == TrafficLog(firstId + j, Strip(recs[j].sourceIp), Strip(recs[j].destIp),
                                                       recs[j].sourcePort, recs[j].destPort, recs[j].protocol,
                                                       recs[j].packetSize, Some(recs[j].tcpFlags))
    {
      SensorRecordSaved(ps[j], firstId + j);
    }
  }
}
