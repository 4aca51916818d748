/** The inner IPv4/UDP packets of the packet scenario: how they are built and when a reply is accepted. */
module UdpPacket {
  import opened Bytes
  import opened Checksum

  /** The tunnel's own bound on inner packets; its header is not part of this model. */
  const MAX_INNER_IPV4_PACKET_SIZE: nat

  const IPV4_HEADER_SIZE: nat := 20
  const UDP_HEADER_SIZE: nat := 8
  const UDP_PROTOCOL: byte := 17

  predicate IsAddress(a: seq<byte>) {
    |a| == 4
  }

  function Hi(w: u16): byte {
    w / 0x100
  }

  function Lo(w: u16): byte {
    w % 0x100
  }

  function LoadBigEndian16(bytes: seq<byte>, at: nat): u16
    requires at + 1 < |bytes|
  {
    Word(bytes[at], bytes[at + 1])
  }

  function WithWord(bytes: seq<byte>, at: nat, w: u16): (updated: seq<byte>)
    requires at + 1 < |bytes|
    ensures |updated| == |bytes|
    ensures forall i :: 0 <= i < |bytes| ==> updated[i] == if i == at then Hi(w) else if i == at + 1 then Lo(w) else bytes[i]
  {
    bytes[..at] + [Hi(w), Lo(w)] + bytes[at + 2..]
  }

  // ---- the packet as a value (RFC 791, section 3.1; RFC 768, "Fields") ----

  /** The IPv4 header with the given checksum field. */
  function Ipv4Header(size: u16, identification: u16, checksum: u16, source: seq<byte>, destination: seq<byte>): (h: seq<byte>)
    requires IsAddress(source) && IsAddress(destination)
    ensures |h| == IPV4_HEADER_SIZE
  {
    [0x45, 0, Hi(size), Lo(size), Hi(identification), Lo(identification), 0x40, 0, 64, UDP_PROTOCOL,
     Hi(checksum), Lo(checksum)] + source + destination
  }

  function UdpDatagram(sourcePort: u16, destinationPort: u16, checksum: u16, payload: seq<byte>): (d: seq<byte>)
    requires UDP_HEADER_SIZE + |payload| <= 0xFFFF
    ensures |d| == UDP_HEADER_SIZE + |payload|
  {
    var size := UDP_HEADER_SIZE + |payload|;
    [Hi(sourcePort), Lo(sourcePort), Hi(destinationPort), Lo(destinationPort), Hi(size), Lo(size),
     Hi(checksum), Lo(checksum)] + payload
  }

  /** The pseudo-header summed in front of a UDP datagram. */
  function PseudoHeader(source: seq<byte>, destination: seq<byte>, udpSize: u16): (h: seq<byte>)
    requires IsAddress(source) && IsAddress(destination)
    ensures |h| == 12
  {
    source + destination + [0, UDP_PROTOCOL, Hi(udpSize), Lo(udpSize)]
  }

  function UdpChecksum(source: seq<byte>, destination: seq<byte>, udp: seq<byte>): u16
    requires IsAddress(source) && IsAddress(destination) && |udp| <= 0xFFFF
  {
    ChecksumOf(PseudoHeader(source, destination, |udp|) + udp)
  }

  function HeaderChecksum(size: u16, identification: u16, source: seq<byte>, destination: seq<byte>): u16
    requires IsAddress(source) && IsAddress(destination)
  {
    ChecksumOf(Ipv4Header(size, identification, 0, source, destination))
  }

  /** A computed checksum of zero is transmitted as all ones, because zero means "none". */
  function TransmittedUdpChecksum(source: seq<byte>, destination: seq<byte>, sourcePort: u16, destinationPort: u16,
                                  payload: seq<byte>): u16
    requires IsAddress(source) && IsAddress(destination) && UDP_HEADER_SIZE + |payload| <= 0xFFFF
  {
    var checksum := UdpChecksum(source, destination, UdpDatagram(sourcePort, destinationPort, 0, payload));
    if checksum == 0 then 0xFFFF else checksum
  }

  function Packet(source: seq<byte>, destination: seq<byte>, sourcePort: u16, destinationPort: u16, payload: seq<byte>,
                  identification: u16): (p: seq<byte>)
    requires IsAddress(source) && IsAddress(destination) && IPV4_HEADER_SIZE + UDP_HEADER_SIZE + |payload| <= 0xFFFF
    ensures |p| == IPV4_HEADER_SIZE + UDP_HEADER_SIZE + |payload|
  {
    var size := IPV4_HEADER_SIZE + UDP_HEADER_SIZE + |payload|;
    Ipv4Header(size, identification, HeaderChecksum(size, identification, source, destination), source, destination)
    + UdpDatagram(sourcePort, destinationPort,
                  TransmittedUdpChecksum(source, destination, sourcePort, destinationPort, payload), payload)
  }

  // ---- building in place ----

  method StoreBigEndian16(out: array<byte>, at: nat, value: u16)
    requires at + 1 < out.Length
    modifies out
    ensures out[at] == Hi(value) && out[at + 1] == Lo(value)
    ensures forall i :: 0 <= i < out.Length && i != at && i != at + 1 ==> out[i] == old(out[i])
  {
    out[at] := value / 0x100;
    out[at + 1] := value % 0x100;
  }

  method CopyInto(out: array<byte>, at: nat, bytes: seq<byte>)
    requires at + |bytes| <= out.Length
    modifies out
    ensures forall i :: 0 <= i < |bytes| ==> out[at + i] == bytes[i]
    ensures forall i :: 0 <= i < out.Length && !(at <= i < at + |bytes|) ==> out[i] == old(out[i])
  {
    forall i | 0 <= i < |bytes| {
      out[at + i] := bytes[i];
    }
  }

  method ComputeUdpChecksum(source: seq<byte>, destination: seq<byte>, udp: seq<byte>) returns (checksum: u16)
    requires IsAddress(source) && IsAddress(destination) && |udp| <= 0xFFFF
    ensures checksum == UdpChecksum(source, destination, udp)
  {
    var tail: seq<byte> := [0, UDP_PROTOCOL, |udp| / 0x100, |udp| % 0x100];
    ghost var whole := PseudoHeader(source, destination, |udp|) + udp;
    SumNeverWraps(whole);
    PseudoSum(source, destination, source + destination, tail, PseudoHeader(source, destination, |udp|), udp, whole);
    var sum := AddChecksumBytes(0, source);
    sum := AddChecksumBytes(sum, destination);
    sum := AddChecksumBytes(sum, tail);
    sum := AddChecksumBytes(sum, udp);
    assert sum == WordSum(whole);
    checksum := FinishChecksum(sum);
  }

  lemma PseudoSum(source: seq<byte>, destination: seq<byte>, addresses: seq<byte>, tail: seq<byte>, pseudo: seq<byte>,
                  udp: seq<byte>, whole: seq<byte>)
    requires |source| % 2 == |destination| % 2 == |tail| % 2 == 0
    requires addresses == source + destination && pseudo == addresses + tail && whole == pseudo + udp
    ensures WordSum(whole) == WordSum(source) + WordSum(destination) + WordSum(tail) + WordSum(udp)
  {
    WordSumJoin(source, destination, addresses);
    WordSumJoin(addresses, tail, pseudo);
    WordSumJoin(pseudo, udp, whole);
  }

  /** Everything in the header but the checksum. */
  method WriteIpv4Fields(output: array<byte>, size: u16, identification: u16, source: seq<byte>, destination: seq<byte>)
    requires IsAddress(source) && IsAddress(destination) && IPV4_HEADER_SIZE <= output.Length
    requires forall i :: 0 <= i < IPV4_HEADER_SIZE ==> output[i] == 0
    modifies output
    ensures output[..IPV4_HEADER_SIZE] == Ipv4Header(size, identification, 0, source, destination)
    ensures forall i :: IPV4_HEADER_SIZE <= i < output.Length ==> output[i] == old(output[i])
  {
    output[0] := 0x45;
    StoreBigEndian16(output, 2, size);
    StoreBigEndian16(output, 4, identification);
    StoreBigEndian16(output, 6, 0x4000);
    output[8] := 64;
    output[9] := UDP_PROTOCOL;
    CopyInto(output, 12, source);
    CopyInto(output, 16, destination);
  }

  method WriteIpv4Header(output: array<byte>, size: u16, identification: u16, source: seq<byte>, destination: seq<byte>)
    requires IsAddress(source) && IsAddress(destination) && IPV4_HEADER_SIZE <= output.Length
    requires forall i :: 0 <= i < IPV4_HEADER_SIZE ==> output[i] == 0
    modifies output
    ensures output[..IPV4_HEADER_SIZE] ==
            Ipv4Header(size, identification, HeaderChecksum(size, identification, source, destination), source, destination)
    ensures forall i :: IPV4_HEADER_SIZE <= i < output.Length ==> output[i] == old(output[i])
  {
    WriteIpv4Fields(output, size, identification, source, destination);
    ghost var blank := output[..IPV4_HEADER_SIZE];
    var checksum := ComputeChecksum(output[..IPV4_HEADER_SIZE]);
    StoreBigEndian16(output, 10, checksum);
    assert output[..IPV4_HEADER_SIZE] == WithWord(blank, 10, checksum);
  }

  /** Everything in the datagram but the checksum. */
  method WriteUdpFields(output: array<byte>, size: u16, sourcePort: u16, destinationPort: u16, payload: seq<byte>)
    requires IPV4_HEADER_SIZE + UDP_HEADER_SIZE + |payload| == size <= output.Length
    requires forall i :: IPV4_HEADER_SIZE <= i < size ==> output[i] == 0
    modifies output
    ensures output[IPV4_HEADER_SIZE..size] == UdpDatagram(sourcePort, destinationPort, 0, payload)
    ensures forall i :: 0 <= i < IPV4_HEADER_SIZE || size <= i < output.Length ==> output[i] == old(output[i])
  {
    var udp := IPV4_HEADER_SIZE;
    StoreBigEndian16(output, udp, sourcePort);
    StoreBigEndian16(output, udp + 2, destinationPort);
    StoreBigEndian16(output, udp + 4, size - IPV4_HEADER_SIZE);
    CopyInto(output, udp + UDP_HEADER_SIZE, payload);
    DatagramBytes(sourcePort, destinationPort, 0, payload, output[udp..size]);
  }

  method WriteUdpDatagram(output: array<byte>, size: u16, source: seq<byte>, destination: seq<byte>, sourcePort: u16,
                          destinationPort: u16, payload: seq<byte>)
    requires IsAddress(source) && IsAddress(destination)
    requires IPV4_HEADER_SIZE + UDP_HEADER_SIZE + |payload| == size <= output.Length
    requires forall i :: IPV4_HEADER_SIZE <= i < size ==> output[i] == 0
    modifies output
    ensures output[IPV4_HEADER_SIZE..size] ==
            UdpDatagram(sourcePort, destinationPort,
                        TransmittedUdpChecksum(source, destination, sourcePort, destinationPort, payload), payload)
    ensures forall i :: 0 <= i < IPV4_HEADER_SIZE || size <= i < output.Length ==> output[i] == old(output[i])
  {
    WriteUdpFields(output, size, sourcePort, destinationPort, payload);
    ghost var blank := output[IPV4_HEADER_SIZE..size];
    var checksum := ComputeUdpChecksum(source, destination, output[IPV4_HEADER_SIZE..size]);
    if checksum == 0 {
      checksum := 0xFFFF;
    }
    StoreBigEndian16(output, IPV4_HEADER_SIZE + 6, checksum);
    assert output[IPV4_HEADER_SIZE..size] == WithWord(blank, 6, checksum);
    assert WithWord(blank, 6, checksum) == UdpDatagram(sourcePort, destinationPort, checksum, payload);
  }

  lemma DatagramBytes(sourcePort: u16, destinationPort: u16, checksum: u16, payload: seq<byte>, d: seq<byte>)
    requires UDP_HEADER_SIZE + |payload| == |d| <= 0xFFFF
    requires d[0] == Hi(sourcePort) && d[1] == Lo(sourcePort) && d[2] == Hi(destinationPort) && d[3] == Lo(destinationPort)
    requires d[4] == Hi(|d|) && d[5] == Lo(|d|) && d[6] == Hi(checksum) && d[7] == Lo(checksum)
    requires forall i :: 0 <= i < |payload| ==> d[UDP_HEADER_SIZE + i] == payload[i]
    ensures d == UdpDatagram(sourcePort, destinationPort, checksum, payload)
  {
    assert d[UDP_HEADER_SIZE..] == payload;
    assert d == d[..UDP_HEADER_SIZE] + d[UDP_HEADER_SIZE..];
  }

  /** Writes the packet into the buffer and returns its size, or returns zero and leaves the buffer alone. */
  method BuildUdpPacket(output: array<byte>, source: seq<byte>, destination: seq<byte>, sourcePort: u16,
                        destinationPort: u16, payload: seq<byte>, identification: u16) returns (size: nat)
    requires IsAddress(source) && IsAddress(destination)
    modifies output
    ensures var packetSize := IPV4_HEADER_SIZE + UDP_HEADER_SIZE + |payload|;
            if packetSize > output.Length || packetSize > MAX_INNER_IPV4_PACKET_SIZE || packetSize > 0xFFFF
            then size == 0 && output[..] == old(output[..])
            else size == packetSize
                 && output[..size] == Packet(source, destination, sourcePort, destinationPort, payload, identification)
                 && output[size..] == old(output[size..])
  {
    var packetSize := IPV4_HEADER_SIZE + (UDP_HEADER_SIZE + |payload|);
    if packetSize > output.Length || packetSize > MAX_INNER_IPV4_PACKET_SIZE || packetSize > 0xFFFF {
      return 0;
    }
    forall i | 0 <= i < packetSize {
      output[i] := 0;
    }
    WriteIpv4Header(output, packetSize, identification, source, destination);
    ghost var header := output[..IPV4_HEADER_SIZE];
    WriteUdpDatagram(output, packetSize, source, destination, sourcePort, destinationPort, payload);
    assert output[..IPV4_HEADER_SIZE] == header;
    assert output[..packetSize] == output[..IPV4_HEADER_SIZE] + output[IPV4_HEADER_SIZE..packetSize];
    size := packetSize;
  }

  // ---- validating a reply ----

  datatype ExpectedReply = ExpectedReply(local: seq<byte>, remote: seq<byte>, localPort: u16, remotePort: u16, payload: seq<byte>)

  datatype Verdict =
    | Accepted
    | TooShort
    | BadVersionOrHeaderLength
    | BadTotalLength
    | BadHeaderChecksum
    | Fragmented
    | NotUdp
    | AddressMismatch
    | BadUdpLength
    | PortMismatch
    | MissingUdpChecksum
    | BadUdpChecksum
    | PayloadMismatch

  /** A packet whose first `header` bytes are an intact IPv4 header with room for a UDP header behind it. */
  predicate IntactIpv4(packet: seq<byte>, header: nat) {
    && IPV4_HEADER_SIZE <= header <= 60 && header + UDP_HEADER_SIZE <= |packet| <= 0xFFFF
    && packet[0] as int == 0x40 + header / 4 && header % 4 == 0
    && LoadBigEndian16(packet, 2) == |packet|
    && ChecksumOf(packet[..header]) == 0
  }

  /** An IPv4 packet with an intact header of `header` bytes around an intact UDP datagram. */
  predicate IntactUdp(packet: seq<byte>, header: nat) {
    && IntactIpv4(packet, header)
    && packet[9] == UDP_PROTOCOL
    && LoadBigEndian16(packet, header + 4) == |packet| - header
    && LoadBigEndian16(packet, header + 6) != 0
    && UdpChecksum(packet[12..16], packet[16..20], packet[header..]) == 0
  }

  /** No more fragments to come and none before: at most the two top flag bits may be set. */
  predicate Unfragmented(packet: seq<byte>)
    requires |packet| >= IPV4_HEADER_SIZE
  {
    LoadBigEndian16(packet, 6) % 0x4000 == 0
  }

  /** The reply the scenario waits for: intact, whole, between the right endpoints, with the payload that was sent. */
  ghost predicate Acceptable(packet: seq<byte>, expected: ExpectedReply) {
    exists header :: IntactUdp(packet, header) && Matches(packet, header, expected)
  }

  predicate Matches(packet: seq<byte>, header: nat, expected: ExpectedReply)
    requires IPV4_HEADER_SIZE <= header && header + UDP_HEADER_SIZE <= |packet|
  {
    && Unfragmented(packet)
    && packet[12..16] == expected.remote && packet[16..20] == expected.local
    && LoadBigEndian16(packet, header) == expected.remotePort
    && LoadBigEndian16(packet, header + 2) == expected.localPort
    && packet[header + UDP_HEADER_SIZE..] == expected.payload
  }

  /** Header length in bytes, as the first byte states it. */
  function StatedHeader(packet: seq<byte>): nat
    requires packet != []
  {
    packet[0] as int % 0x10 * 4
  }

  /** The defect each rejection of the IPv4 header names. */
  predicate ExplainsIpv4(verdict: Verdict, packet: seq<byte>) {
    if |packet| < IPV4_HEADER_SIZE + UDP_HEADER_SIZE then verdict == TooShort
    else
      var header := StatedHeader(packet);
      match verdict
      case Accepted => true
      case BadVersionOrHeaderLength => packet[0] / 0x10 != 4 || header < IPV4_HEADER_SIZE || header > |packet|
      case BadTotalLength => LoadBigEndian16(packet, 2) != |packet| || |packet| < header + UDP_HEADER_SIZE
      case BadHeaderChecksum => header <= |packet| && ChecksumOf(packet[..header]) != 0
      case _ => false
  }

  method ValidateIpv4(packet: seq<byte>) returns (verdict: Verdict)
    ensures verdict == Accepted <==> packet != [] && IntactIpv4(packet, StatedHeader(packet))
    ensures ExplainsIpv4(verdict, packet)
  {
    if |packet| < IPV4_HEADER_SIZE + UDP_HEADER_SIZE {
      return TooShort;
    }
    var header := StatedHeader(packet);
    if packet[0] / 0x10 != 4 || header < IPV4_HEADER_SIZE || header > |packet| {
      return BadVersionOrHeaderLength;
    }
    var totalSize := LoadBigEndian16(packet, 2);
    if totalSize != |packet| || totalSize < header + UDP_HEADER_SIZE {
      return BadTotalLength;
    }
    var headerChecksum := ComputeChecksum(packet[..header]);
    if headerChecksum != 0 {
      return BadHeaderChecksum;
    }
    verdict := Accepted;
  }

  /** The defect each rejection behind an intact IPv4 header names. */
  predicate Explains(verdict: Verdict, packet: seq<byte>, header: nat, expected: ExpectedReply)
    requires IntactIpv4(packet, header)
  {
    match verdict
    case Accepted => true
    case Fragmented => !Unfragmented(packet)
    case NotUdp => packet[9] != UDP_PROTOCOL
    case AddressMismatch => packet[12..16] != expected.remote || packet[16..20] != expected.local
    case BadUdpLength => LoadBigEndian16(packet, header + 4) != |packet| - header
    case PortMismatch =>
      LoadBigEndian16(packet, header) != expected.remotePort || LoadBigEndian16(packet, header + 2) != expected.localPort
    case MissingUdpChecksum => LoadBigEndian16(packet, header + 6) == 0
    case BadUdpChecksum => UdpChecksum(packet[12..16], packet[16..20], packet[header..]) != 0
    case PayloadMismatch => packet[header + UDP_HEADER_SIZE..] != expected.payload
    case _ => false
  }

  lemma AcceptableAtStatedHeader(packet: seq<byte>, expected: ExpectedReply)
    ensures Acceptable(packet, expected) <==>
            && packet != [] && IntactUdp(packet, StatedHeader(packet))
            && Matches(packet, StatedHeader(packet), expected)
  {
    if Acceptable(packet, expected) {
      var header :| IntactUdp(packet, header) && Matches(packet, header, expected);
      StatedHeaderIsUnique(packet, header);
    }
  }

  lemma StatedHeaderIsUnique(packet: seq<byte>, header: nat)
    requires IntactIpv4(packet, header)
    ensures header == StatedHeader(packet)
  {
  }

  /** The checks in the program's order, each with its own rejection. */
  method ValidateUdpReply(packet: seq<byte>, expected: ExpectedReply) returns (verdict: Verdict)
    requires IsAddress(expected.local) && IsAddress(expected.remote)
    ensures verdict == Accepted <==> Acceptable(packet, expected)
    ensures if packet != [] && IntactIpv4(packet, StatedHeader(packet))
            then Explains(verdict, packet, StatedHeader(packet), expected)
            else verdict != Accepted && ExplainsIpv4(verdict, packet)
  {
    AcceptableAtStatedHeader(packet, expected);
    verdict := ValidateIpv4(packet);
    if verdict != Accepted {
      return;
    }
    var header := StatedHeader(packet);
    if LoadBigEndian16(packet, 6) % 0x4000 != 0 {
      return Fragmented;
    }
    if packet[9] != UDP_PROTOCOL {
      return NotUdp;
    }
    var source, destination := packet[12..16], packet[16..20];
    if source != expected.remote || destination != expected.local {
      return AddressMismatch;
    }
    var udpSize := LoadBigEndian16(packet, header + 4);
    if udpSize != |packet| - header || udpSize < UDP_HEADER_SIZE {
      return BadUdpLength;
    }
    if LoadBigEndian16(packet, header) != expected.remotePort || LoadBigEndian16(packet, header + 2) != expected.localPort {
      return PortMismatch;
    }
    if LoadBigEndian16(packet, header + 6) == 0 {
      return MissingUdpChecksum;
    }
    var udpChecksum := ComputeUdpChecksum(source, destination, packet[header..]);
    if udpChecksum != 0 {
      return BadUdpChecksum;
    }
    if packet[header + UDP_HEADER_SIZE..] != expected.payload {
      return PayloadMismatch;
    }
    verdict := Accepted;
  }

  // ---- every packet that is built is accepted ----

  lemma HeaderVerifies(size: u16, identification: u16, source: seq<byte>, destination: seq<byte>)
    requires IsAddress(source) && IsAddress(destination)
    ensures ChecksumOf(Ipv4Header(size, identification, HeaderChecksum(size, identification, source, destination),
                                  source, destination)) == 0
  {
    var c := HeaderChecksum(size, identification, source, destination);
    var blank := Ipv4Header(size, identification, 0, source, destination);
    var final := Ipv4Header(size, identification, c, source, destination);
    var before, after := blank[..10], blank[12..];
    assert final[..10] == before && final[12..] == after;
    WordSumAround(before, 0, 0, after, blank);
    WordSumAround(before, Hi(c), Lo(c), after, final);
    assert WordAt(blank, 0) == 0x4500;
    StoredChecksumVerifies(WordSum(blank), c);
  }

  /** Twelve bytes of pseudo-header put the checksum at bytes 18 and 19. */
  lemma ChecksumPlace(pseudo: seq<byte>, sourcePort: u16, destinationPort: u16, c: u16, payload: seq<byte>,
                      before: seq<byte>, after: seq<byte>)
    requires |pseudo| == 12 && UDP_HEADER_SIZE + |payload| <= 0xFFFF
    requires before == (pseudo + UdpDatagram(sourcePort, destinationPort, 0, payload))[..18]
    requires after == (pseudo + UdpDatagram(sourcePort, destinationPort, 0, payload))[20..]
    ensures pseudo + UdpDatagram(sourcePort, destinationPort, 0, payload) == before + [0, 0] + after
    ensures pseudo + UdpDatagram(sourcePort, destinationPort, c, payload) == before + [Hi(c), Lo(c)] + after
  {
    var blank := pseudo + UdpDatagram(sourcePort, destinationPort, 0, payload);
    var final := pseudo + UdpDatagram(sourcePort, destinationPort, c, payload);
    assert final[..18] == before && final[20..] == after;
  }

  lemma DatagramVerifies(source: seq<byte>, destination: seq<byte>, sourcePort: u16, destinationPort: u16, payload: seq<byte>)
    requires IsAddress(source) && IsAddress(destination) && UDP_HEADER_SIZE + |payload| <= 0xFFFF
    ensures var c := TransmittedUdpChecksum(source, destination, sourcePort, destinationPort, payload);
            c != 0 && UdpChecksum(source, destination, UdpDatagram(sourcePort, destinationPort, c, payload)) == 0
  {
    var c := TransmittedUdpChecksum(source, destination, sourcePort, destinationPort, payload);
    var size := UDP_HEADER_SIZE + |payload|;
    var pseudo := PseudoHeader(source, destination, size);
    var blank := pseudo + UdpDatagram(sourcePort, destinationPort, 0, payload);
    var final := pseudo + UdpDatagram(sourcePort, destinationPort, c, payload);
    var before, after := blank[..18], blank[20..];
    ChecksumPlace(pseudo, sourcePort, destinationPort, c, payload, before, after);
    WordSumAround(before, 0, 0, after, blank);
    WordSumAround(before, Hi(c), Lo(c), after, final);
    PseudoHeaderCounts(blank, source, destination, size);
    StoredChecksumVerifies(WordSum(blank), c);
  }

  /** The protocol number alone keeps the sum over a datagram positive. */
  lemma PseudoHeaderCounts(whole: seq<byte>, source: seq<byte>, destination: seq<byte>, size: u16)
    requires IsAddress(source) && IsAddress(destination) && |whole| >= 12
    requires whole[..12] == PseudoHeader(source, destination, size)
    ensures WordSum(whole) > 0
  {
    assert whole == whole[..8] + whole[8..];
    WordSumJoin(whole[..8], whole[8..], whole);
    assert whole[8..][0] == whole[..12][8] && whole[8..][1] == whole[..12][9];
    assert WordAt(whole[8..], 0) == 17;
  }

  lemma HeaderParts(size: u16, identification: u16, checksum: u16, source: seq<byte>, destination: seq<byte>,
                    header: seq<byte>, rest: seq<byte>, p: seq<byte>)
    requires IsAddress(source) && IsAddress(destination) && p == header + rest
    requires header == Ipv4Header(size, identification, checksum, source, destination)
    ensures p[..20] == header && p[20..] == rest && p[12..16] == source && p[16..20] == destination
    ensures LoadBigEndian16(p, 2) == size && Unfragmented(p) && p[0] == 0x45 && p[9] == UDP_PROTOCOL
    ensures LoadBigEndian16(p, 4) == identification && LoadBigEndian16(p, 6) == 0x4000 && p[8] == 64
    ensures LoadBigEndian16(p, 10) == checksum && p[1] == 0
  {
    assert header[12..16] == source && header[16..20] == destination;
  }

  lemma DatagramParts(sourcePort: u16, destinationPort: u16, checksum: u16, payload: seq<byte>, d: seq<byte>, p: seq<byte>)
    requires UDP_HEADER_SIZE + |payload| <= 0xFFFF && d == UdpDatagram(sourcePort, destinationPort, checksum, payload)
    requires |p| >= 20 && p[20..] == d
    ensures LoadBigEndian16(p, 20) == sourcePort && LoadBigEndian16(p, 22) == destinationPort
    ensures LoadBigEndian16(p, 24) == |d| && LoadBigEndian16(p, 26) == checksum && p[28..] == payload
  {
    assert forall i :: 0 <= i < 8 ==> p[20 + i] == d[i];
    assert p[28..] == d[8..] == payload;
  }

  /** Any packet the builder emits is accepted by the validator for the matching expectation. */
  lemma BuiltPacketIsAccepted(source: seq<byte>, destination: seq<byte>, sourcePort: u16, destinationPort: u16,
                              payload: seq<byte>, identification: u16)
    requires IsAddress(source) && IsAddress(destination) && IPV4_HEADER_SIZE + UDP_HEADER_SIZE + |payload| <= 0xFFFF
    ensures Acceptable(Packet(source, destination, sourcePort, destinationPort, payload, identification),
                       ExpectedReply(destination, source, destinationPort, sourcePort, payload))
  {
    var p := Packet(source, destination, sourcePort, destinationPort, payload, identification);
    var c := TransmittedUdpChecksum(source, destination, sourcePort, destinationPort, payload);
    var sum := HeaderChecksum(|p|, identification, source, destination);
    var header, udp := Ipv4Header(|p|, identification, sum, source, destination),
                       UdpDatagram(sourcePort, destinationPort, c, payload);
    HeaderParts(|p|, identification, sum, source, destination, header, udp, p);
    DatagramParts(sourcePort, destinationPort, c, payload, udp, p);
    HeaderVerifies(|p|, identification, source, destination);
    DatagramVerifies(source, destination, sourcePort, destinationPort, payload);
    assert IntactUdp(p, 20);
  }

  /** Flag bits, from the top: reserved, don't fragment, more fragments; then thirteen bits of offset. */
  predicate DontFragment(packet: seq<byte>)
    requires |packet| >= IPV4_HEADER_SIZE
  {
    LoadBigEndian16(packet, 6) / 0x4000 == 1
  }

  /**
   * What the packet says of itself to any node on its way: a 20-byte header, the whole packet's size, the
   * identification given to the builder, not a fragment and not to be fragmented, hops left, UDP between these endpoints.
   */
  lemma BuiltPacketReads(source: seq<byte>, destination: seq<byte>, sourcePort: u16, destinationPort: u16,
                         payload: seq<byte>, identification: u16, p: seq<byte>)
    requires IsAddress(source) && IsAddress(destination) && IPV4_HEADER_SIZE + UDP_HEADER_SIZE + |payload| <= 0xFFFF
    requires p == Packet(source, destination, sourcePort, destinationPort, payload, identification)
    ensures |p| == 28 + |payload| && LoadBigEndian16(p, 2) == |p| && StatedHeader(p) == 20 && p[0] / 0x10 == 4
    ensures LoadBigEndian16(p, 4) == identification
    ensures DontFragment(p) && Unfragmented(p) && p[8] == 64 && p[9] == 17
    ensures p[12..16] == source && p[16..20] == destination
    ensures LoadBigEndian16(p, 20) == sourcePort && LoadBigEndian16(p, 22) == destinationPort
    ensures LoadBigEndian16(p, 24) == 8 + |payload| && p[28..] == payload
  {
    var c := TransmittedUdpChecksum(source, destination, sourcePort, destinationPort, payload);
    var sum := HeaderChecksum(|p|, identification, source, destination);
    var header, udp := Ipv4Header(|p|, identification, sum, source, destination),
                       UdpDatagram(sourcePort, destinationPort, c, payload);
    HeaderParts(|p|, identification, sum, source, destination, header, udp, p);
    DatagramParts(sourcePort, destinationPort, c, payload, udp, p);
  }

  // ---- what an accepted packet rules out ----

  /** Acceptance pins down the payload: one packet cannot answer two different expectations. */
  lemma AcceptanceIsUnambiguous(packet: seq<byte>, one: ExpectedReply, other: ExpectedReply)
    ensures Acceptable(packet, one) && Acceptable(packet, other) ==> one == other
  {
  }

  /** Changing one aligned word of an accepted 20-byte header is noticed unless it swaps the two zeros. */
  lemma HeaderWordChange(packet: seq<byte>, k: nat, hi: byte, lo: byte, packet': seq<byte>)
    requires |packet| >= IPV4_HEADER_SIZE && k < 10 && packet' == packet[2 * k := hi][2 * k + 1 := lo]
    requires ChecksumOf(packet[..IPV4_HEADER_SIZE]) == 0 && packet[0] == 0x45 && k > 0
    ensures ChecksumOf(packet'[..IPV4_HEADER_SIZE]) == 0 <==>
            || packet' == packet
            || (packet[2 * k] == packet[2 * k + 1] == 0 && hi == lo == 0xFF)
            || (packet[2 * k] == packet[2 * k + 1] == 0xFF && hi == lo == 0)
  {
    var h, h' := packet[..IPV4_HEADER_SIZE], packet'[..IPV4_HEADER_SIZE];
    var before, after := h[..2 * k], h[2 * k + 2..];
    assert h == before + [h[2 * k], h[2 * k + 1]] + after && h' == before + [hi, lo] + after;
    WordChangeDetection(before, h[2 * k], h[2 * k + 1], hi, lo, after, h, h');
    assert WordAt(before, 0) >= 0x4500;
    assert packet' == packet <==> hi == packet[2 * k] && lo == packet[2 * k + 1];
  }

  /** The deliberate corruption of the scenario, complementing the first checksum byte, is always refused. */
  lemma CorruptedChecksumIsRefused(source: seq<byte>, destination: seq<byte>, sourcePort: u16, destinationPort: u16,
                                   payload: seq<byte>, identification: u16, expected: ExpectedReply)
    requires IsAddress(source) && IsAddress(destination) && IPV4_HEADER_SIZE + UDP_HEADER_SIZE + |payload| <= 0xFFFF
    ensures var p := Packet(source, destination, sourcePort, destinationPort, payload, identification);
            !Acceptable(p[10 := 0xFF - p[10]], expected)
  {
    var p := Packet(source, destination, sourcePort, destinationPort, payload, identification);
    var p' := p[10 := 0xFF - p[10]];
    var sum := HeaderChecksum(|p|, identification, source, destination);
    var header := Ipv4Header(|p|, identification, sum, source, destination);
    HeaderParts(|p|, identification, sum, source, destination, header, p[20..], p);
    HeaderVerifies(|p|, identification, source, destination);
    assert p' == p[10 := 0xFF - p[10]][11 := p[11]];
    HeaderWordChange(p, 5, 0xFF - p[10], p[11], p');
    assert p'[10] != p[10];
    assert !IntactUdp(p', 20);
    assert forall header :: IntactUdp(p', header) ==> header == 20;
  }
}
