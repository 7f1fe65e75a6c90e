// Probe packets (construct.rs): the Internet checksum, packet sizes, echo requests and UDP
// datagrams whose sequence number travels in a port or in the checksum field.
module Construct {
  import opened Common
  import opened Requests
  import opened Cdecode

  const IP4_HEADER := 20
  const IP6_HEADER := 40
  const ICMP_HEADER := 8
  const UDP_HEADER := 8
  const ICMP_ECHO := 8
  const ICMP6_ECHO := 128
  const PACKET_BUFFER_SIZE := 9000
  const MIN_UNPRIVILEGED_PORT := 1024
  const UDP_PORT_RANGE := 65536

  function Hi(v: u16): byte {
    v / 256
  }

  function Lo(v: u16): byte {
    v % 256
  }

  /** The big-endian 16-bit word at an offset. */
  function Be16(b: seq<byte>, at: nat): u16
    requires at + 1 < |b|
  {
    (b[at] as int) * 256 + b[at + 1] as int
  }

  // ----- RFC 1071 -----

  /** What byte `v` contributes at offset `i`. */
  function Half(i: nat, v: int): int {
    if i % 2 == 0 then 256 * v else v
  }

  /** The bytes summed as big-endian 16-bit words; an odd last byte is a high half. */
  function WordSum(b: seq<byte>): nat {
    if b == [] then 0 else WordSum(b[..|b| - 1]) + Half(|b| - 1, b[|b| - 1])
  }

  /** The one's-complement residue: 0 for 0, otherwise the representative in 1 .. 65535. */
  function Residue(sum: nat): u16 {
    if sum == 0 then 0 else (sum - 1) % 65535 + 1
  }

  function ChecksumOf(b: seq<byte>): u16 {
    65535 - Residue(WordSum(b))
  }

  lemma FoldKeepsResidue(sum: nat)
    requires sum >= 0x1_0000
    ensures 0 < sum / 0x1_0000 + sum % 0x1_0000 < sum
    ensures Residue(sum / 0x1_0000 + sum % 0x1_0000) == Residue(sum)
  {
    var q, r := sum / 0x1_0000, sum % 0x1_0000;
    assert sum - 1 == (q + r - 1) + 65535 * q;
    ModPlusMultiple(q + r - 1, q);
  }

  lemma {:induction false} ModPlusMultiple(a: nat, q: nat)
    ensures (a + 65535 * q) % 65535 == a % 65535
  {
    if q > 0 {
      ModPlusMultiple(a, q - 1);
      assert a + 65535 * q == (a + 65535 * (q - 1)) + 65535;
    }
  }

  /** `checksum`: sum the words, fold the carries until 16 bits are left, complement. */
  method Checksum(bytes: seq<byte>) returns (c: u16)
    ensures c == ChecksumOf(bytes)
  {
    var sum: nat := 0;
    for i := 0 to |bytes|
      invariant sum == WordSum(bytes[..i])
    {
      assert bytes[..i + 1][..i] == bytes[..i];
      var v: nat := bytes[i];
      sum := sum + if i % 2 == 0 then v * 256 else v;
    }
    assert bytes[..|bytes|] == bytes;
    while sum / 0x1_0000 != 0
      invariant Residue(sum) == Residue(WordSum(bytes))
      decreases sum
    {
      FoldKeepsResidue(sum);
      sum := sum / 0x1_0000 + sum % 0x1_0000;
    }
    assert Residue(sum) == sum;
    c := 65535 - sum;
  }

  lemma {:induction false} WordSumUpdate(b: seq<byte>, i: nat, v: byte)
    requires i < |b|
    ensures WordSum(b[i := v]) == WordSum(b) + Half(i, v) - Half(i, b[i])
  {
    var n := |b| - 1;
    if i == n {
      assert b[i := v][..n] == b[..n];
    } else {
      WordSumUpdate(b[..n], i, v);
      assert b[i := v][..n] == b[..n][i := v];
    }
  }

  lemma HalfShifts(even: nat, i: nat, v: int)
    requires even % 2 == 0
    ensures Half(even + i, v) == Half(i, v)
  {
  }

  lemma {:induction false} WordSumConcat(a: seq<byte>, b: seq<byte>)
    requires |a| % 2 == 0
    ensures WordSum(a + b) == WordSum(a) + WordSum(b)
  {
    hide Half;
    if b == [] {
      assert a + b == a;
    } else {
      var n := |b| - 1;
      WordSumConcat(a, b[..n]);
      assert (a + b)[..|a + b| - 1] == a + b[..n];
      HalfShifts(|a|, n, b[n]);
    }
  }

  /** A 16-bit word written big-endian. */
  function Put16(b: seq<byte>, at: nat, v: u16): (r: seq<byte>)
    requires at + 1 < |b|
    ensures |r| == |b| && r[at] == Hi(v) && r[at + 1] == Lo(v)
    ensures forall i :: 0 <= i < |b| && i != at && i != at + 1 ==> r[i] == b[i]
  {
    b[at := Hi(v)][at + 1 := Lo(v)]
  }

  lemma WordSumPut16(b: seq<byte>, at: nat, v: u16)
    requires at + 1 < |b| && at % 2 == 0 && b[at] == 0 && b[at + 1] == 0
    ensures WordSum(Put16(b, at, v)) == WordSum(b) + v
  {
    hide WordSum;
    WordSumUpdate(b, at, Hi(v));
    WordSumUpdate(b[at := Hi(v)], at + 1, Lo(v));
  }

  /** Adding the complement of a sum's residue makes the sum verify. */
  lemma ComplementVerifies(sum: nat)
    ensures Residue(sum + (65535 - Residue(sum))) == 65535
  {
    if sum > 0 {
      var q, r := (sum - 1) / 65535, (sum - 1) % 65535;
      assert sum - 1 == r + 65535 * q;
      assert sum + (65535 - (r + 1)) - 1 == 65534 + 65535 * q;
      ModPlusMultiple(65534, q);
    }
  }

  /** RFC 1071: storing the checksum of a packet in its own zeroed field makes the packet verify. */
  lemma StoredChecksumVerifies(b: seq<byte>, at: nat)
    requires at + 1 < |b| && at % 2 == 0 && b[at] == 0 && b[at + 1] == 0
    ensures ChecksumOf(Put16(b, at, ChecksumOf(b))) == 0
  {
    WordSumPut16(b, at, ChecksumOf(b));
    ComplementVerifies(WordSum(b));
  }

  // ----- Sizes -----

  /** `compute_packet_size`; `None` is `invalid-argument`. */
  method PacketSize(params: CProbeParams, isRaw: bool) returns (r: Option<nat>)
    ensures r == PacketSizeOf(params, isRaw)
  {
    if params.protocol == Tcp || params.protocol == Sctp {
      return Some(0);
    }
    if params.ipVersion != 4 && params.ipVersion != 6 {
      return None;
    }
    var size := if !isRaw then 0 else if params.ipVersion == 6 then IP6_HEADER else IP4_HEADER;
    size := size + if params.protocol == Icmp then ICMP_HEADER else UDP_HEADER + 4;
    if params.packetSize >= 0 {
      size := Max(size, params.packetSize);
    }
    if params.ipVersion == 6 && isRaw {
      size := size - IP6_HEADER;
    }
    if size > PACKET_BUFFER_SIZE {
      return None;
    }
    r := Some(size);
  }

  function HeaderSize(params: CProbeParams): nat {
    if params.protocol == Icmp then ICMP_HEADER else UDP_HEADER + 4
  }

  /** The bytes handed to the socket: at least the headers the program builds itself. A raw IPv4
      request counts the IP header in, a raw IPv6 one has it taken off again. */
  function PacketSizeOf(params: CProbeParams, isRaw: bool): Option<nat> {
    if params.protocol in {Tcp, Sctp} then Some(0)
    else if params.ipVersion !in {4, 6} then None
    else
      var overhead := if !isRaw then 0 else if params.ipVersion == 6 then IP6_HEADER else IP4_HEADER;
      var whole := Max(overhead + HeaderSize(params), params.packetSize);
      var size := if params.ipVersion == 6 then whole - overhead else whole;
      if size > PACKET_BUFFER_SIZE then None else Some(size)
  }

  /** Every size granted to a datagram keeps its builder in bounds: 8 bytes for an echo request,
      12 for UDP, so that the payload word balancing the checksum exists. */
  lemma GrantedSizesFitBuilders(params: CProbeParams, isRaw: bool)
    requires PacketSizeOf(params, isRaw).Some? && params.protocol in {Icmp, Udp}
    ensures HeaderSize(params) <= PacketSizeOf(params, isRaw).value <= PACKET_BUFFER_SIZE
    ensures params.packetSize >= IP6_HEADER + HeaderSize(params) ==>
              PacketSizeOf(params, isRaw).value
              == if params.ipVersion == 6 && isRaw then params.packetSize - IP6_HEADER else params.packetSize
  {
  }

  /** Which sizes are granted. Headers are 8 bytes for ICMP and 12 for UDP, and a raw request counts
      the IP header in; what is sent is the request or, if that is too small, exactly the headers. */
  lemma SizeGrantedIff(params: CProbeParams, isRaw: bool)
    ensures params.protocol in {Tcp, Sctp} ==> PacketSizeOf(params, isRaw) == Some(0)
    ensures params.protocol in {Icmp, Udp} ==>
              var takenOff := if isRaw && params.ipVersion == 6 then 40 else 0;
              var headers := (if params.protocol == Icmp then 8 else 12)
                             + if !isRaw then 0 else if params.ipVersion == 6 then 40 else 20;
              && (PacketSizeOf(params, isRaw).Some? <==> params.ipVersion in {4, 6} && params.packetSize <= 9000 + takenOff)
              && (PacketSizeOf(params, isRaw).Some? ==>
                    var whole := PacketSizeOf(params, isRaw).value + takenOff;
                    && headers <= whole && params.packetSize <= whole
                    && (whole == headers || whole == params.packetSize))
  {
  }

  // ----- ICMP echo -----

  function EchoHeader(version: byte, id: u16, sequence: u16, checksum: u16): (r: seq<byte>)
    ensures |r| == ICMP_HEADER
  {
    [if version == 6 then ICMP6_ECHO else ICMP_ECHO, 0, Hi(checksum), Lo(checksum),
     Hi(id), Lo(id), Hi(sequence), Lo(sequence)]
  }

  /** `icmp_echo`: the header overwrites the first eight bytes of the filled buffer. */
  method IcmpEcho(buf: array<byte>, version: byte, id: u16, sequence: u16)
    requires buf.Length >= ICMP_HEADER
    modifies buf
    ensures exists c: u16 :: buf[..] == EchoHeader(version, id, sequence, c) + old(buf[ICMP_HEADER..])
    ensures version != 4 ==> buf[..] == EchoHeader(version, id, sequence, 0) + old(buf[ICMP_HEADER..])
    ensures version == 4 ==> ChecksumOf(buf[..]) == 0
    ensures buf[0] == (if version == 6 then 128 else 8) && buf[1] == 0
    ensures Be16(buf[..], 4) == id && Be16(buf[..], 6) == sequence
  {
    hide WordSum, Residue, ChecksumOf;
    ghost var payload := buf[ICMP_HEADER..];
    for i := 0 to ICMP_HEADER
      invariant forall j :: 0 <= j < i ==> buf[j] == 0
      invariant buf[ICMP_HEADER..] == payload
    {
      buf[i] := 0;
    }
    buf[0] := if version == 6 then ICMP6_ECHO else ICMP_ECHO;
    buf[4], buf[5] := Hi(id), Lo(id);
    buf[6], buf[7] := Hi(sequence), Lo(sequence);
    ghost var zeroed := buf[..];
    assert buf[..] == EchoHeader(version, id, sequence, 0) + payload;
    if version == 4 {
      var c := Checksum(buf[..]);
      buf[2], buf[3] := Hi(c), Lo(c);
      assert buf[..] == Put16(zeroed, 2, c);
      StoredChecksumVerifies(zeroed, 2);
      assert buf[..] == EchoHeader(version, id, sequence, c) + payload;
    }
  }

  // ----- UDP -----

  function UdpSourcePortFromPid(pid: nat): (port: u16)
    ensures port >= MIN_UNPRIVILEGED_PORT
    ensures pid % 0x1_0000 >= MIN_UNPRIVILEGED_PORT ==> port == pid % 0x1_0000
    ensures (port - pid % 0x1_0000) % 64512 == 0
  {
    var port := pid % 0x1_0000;
    if port < MIN_UNPRIVILEGED_PORT then port + UDP_PORT_RANGE - MIN_UNPRIVILEGED_PORT else port
  }

  datatype UdpPorts = UdpPorts(src: u16, dst: u16, checksumIsSequence: bool)

  /** `udp_ports`: the sequence takes the port that was left open, or the checksum field. */
  function PortsFor(params: CProbeParams, sequence: u16, pidPort: u16): UdpPorts {
    var dest := params.destPort % 0x1_0000;
    var local := params.localPort % 0x1_0000;
    if params.destPort != 0 then
      if params.localPort != 0 then UdpPorts(local, dest, true) else UdpPorts(sequence, dest, false)
    else
      UdpPorts(if params.localPort != 0 then local else pidPort, sequence, false)
  }

  /** Ports that were asked for are the ports used, and the sequence travels in exactly the first of
      destination port, source port and checksum field that the request leaves open. */
  lemma PortsRespectRequest(params: CProbeParams, sequence: u16, pidPort: u16)
    ensures var p := PortsFor(params, sequence, pidPort);
            && (params.destPort != 0 ==> p.dst == params.destPort % 0x1_0000)
            && (params.localPort != 0 ==> p.src == params.localPort % 0x1_0000)
            && (params.destPort == 0 ==> p.dst == sequence && (params.localPort == 0 ==> p.src == pidPort))
            && (params.destPort != 0 && params.localPort == 0 ==> p.src == sequence)
            && (p.checksumIsSequence <==> params.destPort != 0 && params.localPort != 0)
  {
  }

  function PseudoHeader(src: IpAddr, dst: IpAddr, udpLen: u16): (r: seq<byte>)
    requires WellFormedIp(src) && WellFormedIp(dst)
    ensures |r| % 2 == 0
  {
    if src.V4? && dst.V4? then src.octets + dst.octets + [0, 17, Hi(udpLen), Lo(udpLen)]
    else if src.V6? && dst.V6? then src.octets + dst.octets + [0, 0, Hi(udpLen), Lo(udpLen), 0, 0, 0, 17]
    else []
  }

  lemma WordSumTwo(a: byte, b: byte)
    ensures WordSum([a, b]) == (a as int) * 256 + b
  {
    assert [a, b][..1] == [a] && [a][..0] == [];
    assert WordSum([a]) == (a as int) * 256;
  }

  lemma WordSumFour(a: byte, b: byte, c: byte, d: byte)
    ensures WordSum([a, b, c, d]) == (a as int) * 256 + b + (c as int) * 256 + d
  {
    assert [a, b, c, d] == [a, b] + [c, d];
    WordSumConcat([a, b], [c, d]);
    WordSumTwo(a, b);
    WordSumTwo(c, d);
  }

  /** Both families' pseudo-headers add up to the addresses, the protocol number 17 and the length
      (RFC 768, RFC 8200 section 8.1). */
  lemma PseudoHeaderSum(src: IpAddr, dst: IpAddr, udpLen: u16)
    requires WellFormedIp(src) && WellFormedIp(dst) && (src.V4? <==> dst.V4?)
    ensures WordSum(PseudoHeader(src, dst, udpLen)) == WordSum(src.octets) + WordSum(dst.octets) + 17 + udpLen
  {
    var addresses := src.octets + dst.octets;
    WordSumConcat(src.octets, dst.octets);
    WordSumFour(0, 17, Hi(udpLen), Lo(udpLen));
    WordSumFour(0, 0, Hi(udpLen), Lo(udpLen));
    WordSumFour(0, 0, 0, 17);
    hide WordSum;
    if src.V4? {
      WordSumConcat(addresses, [0, 17, Hi(udpLen), Lo(udpLen)]);
    } else {
      WordSumConcat(addresses, [0, 0, Hi(udpLen), Lo(udpLen)]);
      WordSumConcat(addresses + [0, 0, Hi(udpLen), Lo(udpLen)], [0, 0, 0, 17]);
      assert PseudoHeader(src, dst, udpLen) == addresses + [0, 0, Hi(udpLen), Lo(udpLen)] + [0, 0, 0, 17];
    }
  }

  function UdpHeader(ports: UdpPorts, len: u16, checksum: u16): (r: seq<byte>)
    ensures |r| == UDP_HEADER
  {
    [Hi(ports.src), Lo(ports.src), Hi(ports.dst), Lo(ports.dst), Hi(len), Lo(len), Hi(checksum), Lo(checksum)]
  }

  lemma ChecksumAfterPrefix(prefix: seq<byte>, b: seq<byte>, at: nat)
    requires |prefix| % 2 == 0 && at % 2 == 0 && at + 1 < |b| && b[at] == 0 && b[at + 1] == 0
    ensures ChecksumOf(prefix + Put16(b, at, ChecksumOf(prefix + b))) == 0
  {
    var all := prefix + b;
    StoredChecksumVerifies(all, |prefix| + at);
    assert Put16(all, |prefix| + at, ChecksumOf(all)) == prefix + Put16(b, at, ChecksumOf(all));
  }

  /** The eight header bytes; in checksum-is-sequence mode the checksum field holds the sequence. */
  method FillUdpHeader(buf: array<byte>, ports: UdpPorts, sequence: u16)
    requires UDP_HEADER <= buf.Length <= PACKET_BUFFER_SIZE
    modifies buf
    ensures buf[..] == UdpHeader(ports, buf.Length, if ports.checksumIsSequence then sequence else 0)
                       + old(buf[UDP_HEADER..])
  {
    ghost var payload := buf[UDP_HEADER..];
    var len: u16 := buf.Length;
    for i := 0 to UDP_HEADER
      invariant forall j :: 0 <= j < i ==> buf[j] == 0
      invariant buf[UDP_HEADER..] == payload
    {
      buf[i] := 0;
    }
    buf[0], buf[1] := Hi(ports.src), Lo(ports.src);
    buf[2], buf[3] := Hi(ports.dst), Lo(ports.dst);
    buf[4], buf[5] := Hi(len), Lo(len);
    if ports.checksumIsSequence {
      buf[6], buf[7] := Hi(sequence), Lo(sequence);
    }
  }

  /** The fields of a UDP header, where RFC 768 has them. */
  lemma HeaderFields(b: seq<byte>, ports: UdpPorts, len: u16)
    requires |b| >= 8 && exists c: u16 :: b[..8] == UdpHeader(ports, len, c)
    ensures Be16(b, 0) == ports.src && Be16(b, 2) == ports.dst && Be16(b, 4) == len
  {
    var h := b[..8];
    assert forall i :: 0 <= i < 8 ==> b[i] == h[i];
  }

  /** `udp_datagram`. With room for one payload word (which every granted size has), pseudo-header
      and datagram verify in both modes, and in checksum-is-sequence mode the checksum field still
      carries the sequence. */
  method UdpDatagram(buf: array<byte>, ports: UdpPorts, sequence: u16, src: IpAddr, dst: IpAddr)
    requires UDP_HEADER <= buf.Length <= PACKET_BUFFER_SIZE && WellFormedIp(src) && WellFormedIp(dst)
    modifies buf
    ensures exists c: u16 :: buf[..UDP_HEADER] == UdpHeader(ports, buf.Length, c)
    ensures buf.Length >= UDP_HEADER + 2 ==> ChecksumOf(PseudoHeader(src, dst, buf.Length) + buf[..]) == 0
    ensures ports.checksumIsSequence && buf.Length >= UDP_HEADER + 2 ==>
              buf[..UDP_HEADER] == UdpHeader(ports, buf.Length, sequence)
    ensures forall i :: UDP_HEADER + 2 <= i < buf.Length ==> buf[i] == old(buf[i])
    ensures !ports.checksumIsSequence ==> buf[UDP_HEADER..] == old(buf[UDP_HEADER..])
    ensures Be16(buf[..], 0) == ports.src && Be16(buf[..], 2) == ports.dst && Be16(buf[..], 4) == buf.Length
  {
    hide WordSum, Residue, ChecksumOf;
    ghost var payload := buf[UDP_HEADER..];
    FillUdpHeader(buf, ports, sequence);
    ghost var built := buf[..];
    ghost var header := built[..UDP_HEADER];
    assert header == UdpHeader(ports, buf.Length, if ports.checksumIsSequence then sequence else 0);
    assert built[UDP_HEADER..] == payload;
    var pseudo := PseudoHeader(src, dst, buf.Length);
    var all := pseudo + buf[..];
    if ports.checksumIsSequence && buf.Length >= UDP_HEADER + 2 {
      var off := |all| - buf.Length + UDP_HEADER;
      all := all[off := 0][off + 1 := 0];
      ghost var blank := Put16(built, UDP_HEADER, 0);
      assert all == pseudo + blank;
      var c := Checksum(all);
      buf[UDP_HEADER], buf[UDP_HEADER + 1] := Hi(c), Lo(c);
      assert buf[..] == Put16(blank, UDP_HEADER, c);
      ChecksumAfterPrefix(pseudo, blank, UDP_HEADER);
      assert buf[..UDP_HEADER] == header;
    } else {
      var c := Checksum(all);
      buf[6], buf[7] := Hi(c), Lo(c);
      assert buf[..] == Put16(built, 6, c);
      assert buf[..UDP_HEADER] == Put16(header, 6, c) == UdpHeader(ports, buf.Length, c);
      assert buf[UDP_HEADER..] == payload;
      if buf.Length >= UDP_HEADER + 2 {
        assert built[6] == header[6] && built[7] == header[7];
        ChecksumAfterPrefix(pseudo, built, 6);
      }
    }
    forall i | UDP_HEADER + 2 <= i < buf.Length ensures buf[i] == old(buf[i]) {
      assert built[i] == payload[i - UDP_HEADER];
    }
    HeaderFields(buf[..], ports, buf.Length);
  }
}
