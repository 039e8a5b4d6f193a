/**
 * The capturing sensor: each captured packet is normalised into a record,
 * appended to a buffer, and the buffer is flushed to the collector once it
 * holds `PACKET_BATCH_SIZE` records (or on demand, as the timer and shutdown do).
 */
module Interceptor {
  import opened Wrappers

  const PACKET_BATCH_SIZE: nat := 50

  type Port = x: int | 0 <= x < 0x1_0000

  datatype IpLayer = IpLayer(src: string, dst: string)

  /** The six TCP control bits the sensor reports. */
  datatype TcpFlags = TcpFlags(syn: bool, ack: bool, fin: bool, rst: bool, psh: bool, urg: bool)

  datatype TcpLayer = TcpLayer(sport: Port, dport: Port, flags: TcpFlags)

  datatype UdpLayer = UdpLayer(sport: Port, dport: Port)

  /** A captured frame: the layers it carries, and its length in bytes. */
  datatype Packet = Packet(
    ip: Option<IpLayer>,
    tcp: Option<TcpLayer>,
    udp: Option<UdpLayer>,
    icmp: bool,
    length: nat)

  /** The record the sensor sends for one packet. */
  datatype PacketRecord = PacketRecord(
    sourceIp: string,
    destIp: string,
    packetSize: int,
    protocol: string,
    sourcePort: int,
    destPort: int,
    tcpFlags: string)

  /** The letters of the reported flags, in their fixed reporting order. */
  const FLAG_LETTERS: string := "SAFRPU"

  /** Position of a flag letter in the reporting order. */
  function Rank(c: char): nat
  {
    match c
    case 'S' => 0
    case 'A' => 1
    case 'F' => 2
    case 'R' => 3
    case 'P' => 4
    case 'U' => 5
    case _ => 6
  }

  /** Whether the flag written as letter `c` is set. */
  predicate HasFlag(flags: TcpFlags, c: char)
  {
    || (c == 'S' && flags.syn)
    || (c == 'A' && flags.ack)
    || (c == 'F' && flags.fin)
    || (c == 'R' && flags.rst)
    || (c == 'P' && flags.psh)
    || (c == 'U' && flags.urg)
  }

  /** Letters that stand in strictly increasing reporting order: none repeats. */
  ghost predicate Ordered(s: string)
  {
    forall i, j :: 0 <= i < j < |s| ==> Rank(s[i]) < Rank(s[j])
  }

  /** Every letter of `s` comes before `c` in reporting order. */
  ghost predicate Before(s: string, c: char)
  {
    forall i :: 0 <= i < |s| ==> Rank(s[i]) < Rank(c)
  }

  /** The bits of a TCP header, in the order of `FLAG_LETTERS`. */
  function Bits(flags: TcpFlags): (b: seq<bool>)
    ensures |b| == |FLAG_LETTERS|
  {
    [flags.syn, flags.ack, flags.fin, flags.rst, flags.psh, flags.urg]
  }

  /** The letters whose bits are set, in the order the letters are given. */
  function Select(bits: seq<bool>, letters: string): (r: string)
    requires |bits| == |letters|
    ensures |r| <= |letters|
  {
    if letters == [] then ""
    else
      var n := |letters| - 1;
      Select(bits[..n], letters[..n]) + (if bits[n] then [letters[n]] else "")
  }

  /**
   * The flag string of a TCP header: each set flag's letter, once, in the
   * order S, A, F, R, P, U.
   */
  function FlagString(flags: TcpFlags): (r: string)
    ensures |r| <= |FLAG_LETTERS|
  {
    Select(Bits(flags), FLAG_LETTERS)
  }

  /** A selection holds a letter exactly when some position with that letter has its bit set. */
  lemma {:induction false} SelectMembers(bits: seq<bool>, letters: string)
    requires |bits| == |letters|
    ensures forall c :: c in Select(bits, letters) <==> exists i :: 0 <= i < |letters| && bits[i] && letters[i] == c
  {
    if letters != [] {
      var n := |letters| - 1;
      SelectMembers(bits[..n], letters[..n]);
      forall c
        ensures c in Select(bits, letters) <==> exists i :: 0 <= i < |letters| && bits[i] && letters[i] == c
      {
        if exists i :: 0 <= i < |letters| && bits[i] && letters[i] == c {
          var i :| 0 <= i < |letters| && bits[i] && letters[i] == c;
          if i < n {
            assert bits[..n][i] && letters[..n][i] == c;
          }
        }
        if c in Select(bits[..n], letters[..n]) {
          var i :| 0 <= i < n && bits[..n][i] && letters[..n][i] == c;
          assert bits[i] && letters[i] == c;
        }
      }
    }
  }

  /** Selecting from letters in reporting order keeps them in that order. */
  lemma {:induction false} SelectOrdered(bits: seq<bool>, letters: string)
    requires |bits| == |letters| && Ordered(letters)
    ensures Ordered(Select(bits, letters))
    ensures forall c :: Before(letters, c) ==> Before(Select(bits, letters), c)
  {
    if letters != [] {
      var n := |letters| - 1;
      assert Ordered(letters[..n]);
      SelectOrdered(bits[..n], letters[..n]);
      assert Before(letters[..n], letters[n]);
      forall c | Before(letters, c)
        ensures Before(Select(bits, letters), c)
      {
        assert Before(letters[..n], c);
      }
    }
  }

  /** A flag string holds exactly the letters of the flags that are set. */
  lemma FlagStringLetters(flags: TcpFlags)
    ensures forall c :: c in FlagString(flags) <==> HasFlag(flags, c)
  {
    var bits, letters := Bits(flags), FLAG_LETTERS;
    SelectMembers(bits, letters);
    assert letters == ['S', 'A', 'F', 'R', 'P', 'U'];
    forall c
      ensures (exists i :: 0 <= i < |letters| && bits[i] && letters[i] == c) <==> HasFlag(flags, c)
    {
      if HasFlag(flags, c) {
        var i := Rank(c);
        assert 0 <= i < |letters| && bits[i] && letters[i] == c;
      }
    }
  }

  /** The letters of a flag string stand in reporting order, so none repeats. */
  lemma FlagStringOrdered(flags: TcpFlags)
    ensures Ordered(FlagString(flags))
  {
    SelectOrdered(Bits(flags), FLAG_LETTERS);
  }

  /**
   * The record for a packet, or `None` when it has no IP layer. The protocol
   * is chosen TCP first, then UDP, then ICMP, else UNKNOWN.
   */
  function Normalize(p: Packet): (r: Option<PacketRecord>)
    ensures r.Some? <==> p.ip.Some?
  {
    if p.ip.None? then None
    else
      var base := PacketRecord(p.ip.value.src, p.ip.value.dst, p.length, "UNKNOWN", 0, 0, "");
      if p.tcp.Some? then
        Some(base.(protocol := "TCP", sourcePort := p.tcp.value.sport, destPort := p.tcp.value.dport,
                   tcpFlags := FlagString(p.tcp.value.flags)))
      else if p.udp.Some? then
        Some(base.(protocol := "UDP", sourcePort := p.udp.value.sport, destPort := p.udp.value.dport))
      else if p.icmp then
        Some(base.(protocol := "ICMP"))
      else
        Some(base)
  }

  /**
   * What a record says about its packet: addresses and size copied, the
   * first of TCP, UDP, ICMP present as the protocol, ports only for TCP and
   * UDP, flags only for TCP.
   */
  lemma NormalizeClassifies(p: Packet)
    requires p.ip.Some?
    ensures var r := Normalize(p).value;
      && r.sourceIp == p.ip.value.src && r.destIp == p.ip.value.dst
      && r.packetSize == p.length
      && r.protocol in {"TCP", "UDP", "ICMP", "UNKNOWN"}
      && (r.protocol == "TCP" <==> p.tcp.Some?)
      && (r.protocol == "UDP" <==> p.tcp.None? && p.udp.Some?)
      && (r.protocol == "ICMP" <==> p.tcp.None? && p.udp.None? && p.icmp)
      && (r.protocol in {"ICMP", "UNKNOWN"} ==> r.sourcePort == 0 && r.destPort == 0)
      && (r.tcpFlags != "" ==> r.protocol == "TCP")
      && 0 <= r.sourcePort < 0x1_0000 && 0 <= r.destPort < 0x1_0000
  {
  }

  /** The records of a stream of packets, in capture order, non-IP packets dropped. */
  function NormalizeAll(ps: seq<Packet>): (r: seq<PacketRecord>)
    ensures |r| <= |ps|
  {
    if ps == [] then []
    else
      var prev := NormalizeAll(ps[..|ps| - 1]);
      match Normalize(ps[|ps| - 1])
      case Some(rec) => prev + [rec]
      case None => prev
  }

  /** The concatenation of a log of batches. */
  function Flatten(batches: seq<seq<PacketRecord>>): seq<PacketRecord>
  {
    if batches == [] then [] else Flatten(batches[..|batches| - 1]) + batches[|batches| - 1]
  }

  /** Sending one more batch extends the sent stream by exactly that batch. */
  lemma FlattenSnoc(batches: seq<seq<PacketRecord>>, b: seq<PacketRecord>)
    ensures Flatten(batches + [b]) == Flatten(batches) + b
  {
    assert (batches + [b])[..|batches|] == batches;
  }

  /** Normalising one more packet extends the records by at most its own record. */
  lemma NormalizeAllSnoc(ps: seq<Packet>, i: nat)
    requires i < |ps|
    ensures NormalizeAll(ps[..i + 1]) == NormalizeAll(ps[..i]) + (if ps[i].ip.Some? then [Normalize(ps[i]).value] else [])
  {
    assert ps[..i + 1][..i] == ps[..i];
    assert ps[..i + 1][i] == ps[i];
  }

  /** The flag string of a packet, built one letter at a time; empty without TCP. */
  method GetTcpFlags(packet: Packet) returns (flags: string)
    ensures flags == if packet.tcp.Some? then FlagString(packet.tcp.value.flags) else ""
  {
    flags := "";
    if packet.tcp.Some? {
      var f := packet.tcp.value.flags;
      ghost var bits := Bits(f);
      if f.syn { flags := flags + "S"; }
      assert flags == Select(bits[..1], FLAG_LETTERS[..1]);
      if f.ack { flags := flags + "A"; }
      assert flags == Select(bits[..2], FLAG_LETTERS[..2]);
      if f.fin { flags := flags + "F"; }
      assert bits[..3][..2] == bits[..2] && FLAG_LETTERS[..3][..2] == FLAG_LETTERS[..2];
      assert flags == Select(bits[..3], FLAG_LETTERS[..3]);
      if f.rst { flags := flags + "R"; }
      assert bits[..4][..3] == bits[..3] && FLAG_LETTERS[..4][..3] == FLAG_LETTERS[..3];
      assert flags == Select(bits[..4], FLAG_LETTERS[..4]);
      if f.psh { flags := flags + "P"; }
      assert bits[..5][..4] == bits[..4] && FLAG_LETTERS[..5][..4] == FLAG_LETTERS[..4];
      assert flags == Select(bits[..5], FLAG_LETTERS[..5]);
      if f.urg { flags := flags + "U"; }
      assert bits[..6][..5] == bits[..5] && FLAG_LETTERS[..6][..5] == FLAG_LETTERS[..5];
      assert bits[..6] == bits && FLAG_LETTERS[..6] == FLAG_LETTERS;
    }
  }

  /**
   * The sensor's buffer of records not yet sent, the log of batches it has
   * sent, and (for the proofs) every record it has accepted so far.
   */
  class Sensor {
    var packetBuffer: seq<PacketRecord>
    ghost var sent: seq<seq<PacketRecord>>
    ghost var captured: seq<PacketRecord>

    /** The buffer stays below the threshold; every accepted record is sent or buffered, in order. */
    ghost predicate Valid()
      reads this
    {
      |packetBuffer| < PACKET_BATCH_SIZE && Flatten(sent) + packetBuffer == captured
    }

    constructor ()
      ensures Valid() && packetBuffer == [] && sent == [] && captured == []
    {
      packetBuffer := [];
      sent := [];
      captured := [];
    }

    /**
     * Swap the buffer for an empty one and send what it held; an empty buffer
     * sends nothing. A failed send is not retried and the records are not restored.
     */
    method SendPacketBatch()
      requires Flatten(sent) + packetBuffer == captured
      modifies this
      ensures Valid() && captured == old(captured)
      ensures packetBuffer == []
      ensures sent == if old(packetBuffer) == [] then old(sent) else old(sent) + [old(packetBuffer)]
    {
      if packetBuffer == [] {
        return;
      }
      var batchToSend := packetBuffer;
      packetBuffer := [];
      FlattenSnoc(sent, batchToSend);
      sent := sent + [batchToSend];
    }

    /**
     * Normalise one packet; a packet without an IP layer changes nothing.
     * Otherwise its record goes at the end of the buffer, and a buffer that
     * reaches the threshold is flushed.
     */
    method ProcessPacket(packet: Packet)
      requires Valid()
      modifies this
      ensures Valid()
      ensures packet.ip.None? ==> packetBuffer == old(packetBuffer) && sent == old(sent) && captured == old(captured)
      ensures packet.ip.Some? ==>
        var grown := old(packetBuffer) + [Normalize(packet).value];
        && captured == old(captured) + [Normalize(packet).value]
        && if |grown| >= PACKET_BATCH_SIZE then packetBuffer == [] && sent == old(sent) + [grown]
           else packetBuffer == grown && sent == old(sent)
    {
      if packet.ip.Some? {
        var ip := packet.ip.value;
        var packetData := PacketRecord(ip.src, ip.dst, packet.length, "UNKNOWN", 0, 0, "");
        if packet.tcp.Some? {
          packetData := packetData.(protocol := "TCP");
          packetData := packetData.(sourcePort := packet.tcp.value.sport);
          packetData := packetData.(destPort := packet.tcp.value.dport);
          var flags := GetTcpFlags(packet);
          packetData := packetData.(tcpFlags := flags);
        } else if packet.udp.Some? {
          packetData := packetData.(protocol := "UDP");
          packetData := packetData.(sourcePort := packet.udp.value.sport);
          packetData := packetData.(destPort := packet.udp.value.dport);
        } else if packet.icmp {
          packetData := packetData.(protocol := "ICMP");
        }
        packetBuffer := packetBuffer + [packetData];
        captured := captured + [packetData];
        if |packetBuffer| >= PACKET_BATCH_SIZE {
          SendPacketBatch();
        }
      }
    }

    /**
     * A capture session: every packet in turn, then the final flush on
     * shutdown. Every record captured is sent exactly once, in capture order,
     * after whatever was already buffered.
     */
    method Sniff(packets: seq<Packet>)
      requires Valid()
      modifies this
      ensures Valid() && packetBuffer == []
      ensures captured == old(captured) + NormalizeAll(packets)
      ensures Flatten(sent) == old(Flatten(sent)) + old(packetBuffer) + NormalizeAll(packets)
    {
      var i := 0;
      while i < |packets|
        invariant 0 <= i <= |packets|
        invariant Valid()
        invariant captured == old(captured) + NormalizeAll(packets[..i])
      {
        ProcessPacket(packets[i]);
        NormalizeAllSnoc(packets, i);
        i := i + 1;
      }
      assert packets[..i] == packets;
      SendPacketBatch();
    }
  }
}
