// Build a probe, let a router quote it, parse the quotation, match it: the same probe comes back.
module ProbeIdentity {
  import opened Common
  import opened Requests
  import opened Cdecode
  import opened Mpls
  import opened Responses
  import opened Construct
  import opened ProbeTables
  import opened Deconstruct

  // ----- What leaves the host -----

  /** The transport bytes `t` that carry probe `p`: its sequence sits in the ICMP header, in one of
      the UDP ports or the UDP checksum, or in the source port of a stream. */
  ghost predicate SentAs(p: LiveProbe, params: CProbeParams, pidPort: u16, icmpId: u16, t: seq<byte>) {
    && |t| >= 8
    && match p.protocol
       case Icmp => exists c: u16 :: t[..8] == EchoHeader(params.ipVersion, icmpId, p.sequence, c)
       case Udp =>
         var ports := PortsFor(params, p.sequence, pidPort);
         && p.local.port == ports.src && p.remote.port == ports.dst
         && exists len: u16, c: u16 ::
              t[..8] == UdpHeader(ports, len, c) && (ports.checksumIsSequence ==> c == p.sequence)
       case _ => Be16(t, 0) == p.sequence
  }

  /** The construction half of `send_datagram`: the bytes carry the probe's identity and
      verify, the payload is the bit pattern except for the two bytes that may balance the checksum,
      and for UDP the probe remembers the ports that went out. */
  method BuildDatagram(probe: LiveProbe, params: CProbeParams, isRaw: bool, icmpId: u16, pid: nat)
    returns (sent: LiveProbe, r: Option<array<byte>>)
    requires WellFormedIp(probe.local.ip) && WellFormedIp(probe.remote.ip)
    requires probe.protocol == params.protocol
    ensures r.Some? <==> params.protocol in {Icmp, Udp} && PacketSizeOf(params, isRaw).Some?
    ensures r.Some? ==> fresh(r.value) && r.value.Length == PacketSizeOf(params, isRaw).value
    ensures r.Some? ==> SentAs(sent, params, UdpSourcePortFromPid(pid), icmpId, r.value[..])
    ensures r.Some? && params.protocol == Icmp && params.ipVersion == 4 ==> ChecksumOf(r.value[..]) == 0
    ensures r.Some? && params.protocol == Udp ==>
              ChecksumOf(PseudoHeader(probe.local.ip, probe.remote.ip, r.value.Length) + r.value[..]) == 0
    ensures r.Some? ==>
              var balanced := params.protocol == Udp && params.destPort != 0 && params.localPort != 0;
              forall k :: (if balanced then 10 else 8) <= k < r.value.Length ==> r.value[k] == params.bitPattern % 256
    ensures sent == probe.(local := sent.local, remote := sent.remote)
    ensures sent.local.ip == probe.local.ip && sent.remote.ip == probe.remote.ip
    ensures params.protocol != Udp ==> sent == probe
  {
    sent := probe;
    if params.protocol == Tcp || params.protocol == Sctp {
      return sent, None;
    }
    var size := PacketSize(params, isRaw);
    if size.None? {
      return sent, None;
    }
    GrantedSizesFitBuilders(params, isRaw);
    var fill: byte := params.bitPattern % 256;
    var buf := new byte[size.value](_ => fill);
    if params.protocol == Icmp {
      IcmpEcho(buf, params.ipVersion, icmpId, probe.sequence);
    } else {
      var ports := PortsFor(params, probe.sequence, UdpSourcePortFromPid(pid));
      sent := probe.(local := probe.local.(port := ports.src), remote := probe.remote.(port := ports.dst));
      UdpDatagram(buf, ports, probe.sequence, probe.local.ip, probe.remote.ip);
      assert buf[..][..UDP_HEADER] == buf[..UDP_HEADER];
    }
    r := Some(buf);
  }

  // ----- What a router sends back -----

  function ProtoNumber(protocol: Protocol, version: byte): byte {
    match protocol
    case Icmp => if version == 6 then IPPROTO_ICMPV6 else IPPROTO_ICMP
    case Udp => IPPROTO_UDP
    case Tcp => IPPROTO_TCP
    case Sctp => IPPROTO_SCTP
  }

  /** An IPv4 header with any options (RFC 791 section 3.1), or an IPv6 one. */
  predicate IsIpHeader(h: seq<byte>, version: byte, proto: byte, src: IpAddr, dst: IpAddr) {
    if version == 6 then
      |h| == IP6_HEADER && h[6] == proto && V6(h[8..24]) == src && V6(h[24..40]) == dst
    else
      && |h| >= IP4_HEADER && h[0] / 16 == 4 && 5 <= h[0] % 16 && |h| == (h[0] % 16) as int * 4
      && h[9] == proto && V4(h[12..16]) == src && V4(h[16..20]) == dst
  }

  /** The first eight bytes of an ICMP error message of the given kind. */
  predicate IsErrorHeader(e: seq<byte>, version: byte, kind: IcmpKind) {
    |e| == ICMP_HEADER && !kind.EchoReply? && KindOf(e, version) == Some(kind)
  }

  /** The word the client reads, from the type and code bytes on the wire (RFC 792, RFC 4443). */
  lemma WordFromWire(e: seq<byte>, version: byte, kind: IcmpKind)
    requires IsErrorHeader(e, version, kind)
    ensures ResultWord(kind, version)
            == if e[0] == (if version == 6 then 3 else 11) then TtlExpired
               else if e[1] == (if version == 6 then 4 else 3) then Reply
               else NoRouteHost
  {
  }

  /** The quoted headers are read back exactly, whatever follows them. */
  lemma QuotedHeadersParse(e: seq<byte>, h: seq<byte>, t: seq<byte>, version: byte, kind: IcmpKind, proto: byte,
                           src: IpAddr, dst: IpAddr)
    requires IsErrorHeader(e, version, kind) && IsIpHeader(h, version, proto, src, dst) && |t| >= 8
    ensures ParseIcmp(e + h + t, version)
            == Some(Parsed(kind, None, InnerTransport(proto, src, dst, t), LabelsOf(e + h + t)))
  {
    hide LabelsOf, InnerTransport;
    var msg := e + h + t;
    var body := msg[ICMP_HEADER..];
    assert msg[0] == e[0] && msg[1] == e[1];
    assert body == h + t;
    if version == 6 {
      assert body[8..24] == h[8..24] && body[24..40] == h[24..40] && body[IP6_HEADER..] == t;
    } else {
      assert Ip4HeaderLen(body) == Some(|h|);
      assert body[12..16] == h[12..16] && body[16..20] == h[16..20] && body[|h|..] == t;
    }
  }

  lemma HiLo(v: u16)
    ensures (Hi(v) as int) * 256 + Lo(v) as int == v
  {
  }

  lemma Reads16(t: seq<byte>, at: nat, v: u16)
    requires at + 1 < |t| && t[at] == Hi(v) && t[at + 1] == Lo(v)
    ensures Be16(t, at) == v
  {
    HiLo(v);
  }

  /** The transport header is decoded into the identity that was put into it. */
  lemma IcmpTransportParses(version: byte, id: u16, sequence: u16, c: u16, src: IpAddr, dst: IpAddr, t: seq<byte>)
    requires |t| >= 8 && t[..8] == EchoHeader(version, id, sequence, c)
    ensures InnerTransport(ProtoNumber(Icmp, version), src, dst, t) == Some(InnerIcmp(id, sequence))
  {
    var head := t[..8];
    assert t[4] == head[4] && t[5] == head[5] && t[6] == head[6] && t[7] == head[7];
    Reads16(t, 4, id);
    Reads16(t, 6, sequence);
  }

  lemma UdpTransportParses(ports: UdpPorts, len: u16, c: u16, src: IpAddr, dst: IpAddr, t: seq<byte>)
    requires |t| >= 8 && t[..8] == UdpHeader(ports, len, c)
    ensures InnerTransport(IPPROTO_UDP, src, dst, t) == Some(InnerUdp(src, dst, ports.src, ports.dst, c))
  {
    var head := t[..8];
    assert t[0] == head[0] && t[1] == head[1] && t[2] == head[2] && t[3] == head[3];
    assert t[6] == head[6] && t[7] == head[7];
    Reads16(t, 0, ports.src);
    Reads16(t, 2, ports.dst);
    Reads16(t, 6, c);
  }

  // ----- Whose probe it is -----

  predicate UniqueSequence(probes: seq<LiveProbe>, i: nat)
    requires i < |probes|
  {
    forall j :: 0 <= j < |probes| && j != i ==> probes[j].sequence != probes[i].sequence
  }

  predicate OtherHas(probes: seq<LiveProbe>, i: nat, sequence: u16)
    requires i < |probes|
  {
    exists j :: 0 <= j < |probes| && j != i && probes[j].sequence == sequence
  }

  /** A fixed UDP port that equals another live probe's sequence is taken for that probe: the
      destination port when it is fixed, and the source port when both are. */
  predicate Shadowed(probes: seq<LiveProbe>, i: nat, params: CProbeParams, pidPort: u16)
    requires i < |probes|
  {
    var p := probes[i];
    var ports := PortsFor(params, p.sequence, pidPort);
    && p.protocol == Udp
    && params.destPort != 0
    && (OtherHas(probes, i, ports.dst)
        || (ports.checksumIsSequence && ports.dst != p.sequence && OtherHas(probes, i, ports.src)))
  }

  lemma FindsUnique(probes: seq<LiveProbe>, i: nat)
    requires i < |probes| && UniqueSequence(probes, i)
    ensures FirstWith(probes, probes[i].sequence) == Some(i)
  {
  }

  lemma FindsOther(probes: seq<LiveProbe>, i: nat, sequence: u16)
    requires i < |probes| && UniqueSequence(probes, i)
    ensures OtherHas(probes, i, sequence) ==>
              FirstWith(probes, sequence).Some? && FirstWith(probes, sequence).value != i
    ensures !OtherHas(probes, i, sequence) ==>
              FirstWith(probes, sequence) == if sequence == probes[i].sequence then Some(i) else None
  {
    if OtherHas(probes, i, sequence) {
      var j :| 0 <= j < |probes| && j != i && probes[j].sequence == sequence;
      assert FirstWith(probes, sequence).Some?;
    }
  }

  lemma UdpMatches(probes: seq<LiveProbe>, i: nat, params: CProbeParams, pidPort: u16, c: u16,
                   addrs: Option<(IpAddr, IpAddr)>)
    requires i < |probes| && UniqueSequence(probes, i) && probes[i].protocol == Udp
    requires var ports := PortsFor(params, probes[i].sequence, pidPort);
             && probes[i].local.port == ports.src && probes[i].remote.port == ports.dst
             && (ports.checksumIsSequence ==> c == probes[i].sequence)
    requires addrs.Some? ==> addrs.value == (probes[i].local.ip, probes[i].remote.ip)
    ensures var ports := PortsFor(params, probes[i].sequence, pidPort);
            MatchUdp(probes, ports.src, ports.dst, c, addrs) == Some(i) <==> !Shadowed(probes, i, params, pidPort)
  {
    hide FirstWith;
    var ports := PortsFor(params, probes[i].sequence, pidPort);
    FindsOther(probes, i, ports.dst);
    FindsOther(probes, i, ports.src);
    FindsUnique(probes, i);
  }

  /** The main theorem. A live probe whose sequence is unique, quoted by any router in an
      error message (expired or unreachable, any header options, any trailing bytes), is found again
      with the right result word exactly when no fixed port shadows it. */
  lemma QuotedProbeIsFoundIff(probes: seq<LiveProbe>, i: nat, params: CProbeParams, pidPort: u16, icmpId: u16,
                              e: seq<byte>, h: seq<byte>, t: seq<byte>, kind: IcmpKind)
    requires i < |probes| && UniqueSequence(probes, i)
    requires SentAs(probes[i], params, pidPort, icmpId, t)
    requires IsErrorHeader(e, params.ipVersion, kind)
    requires IsIpHeader(h, params.ipVersion, ProtoNumber(probes[i].protocol, params.ipVersion),
                        probes[i].local.ip, probes[i].remote.ip)
    ensures ParseIcmp(e + h + t, params.ipVersion).Some?
    ensures MatchReply(probes, ParseIcmp(e + h + t, params.ipVersion).value, params.ipVersion, icmpId)
            == Some((i, ResultWord(kind, params.ipVersion)))
            <==> !Shadowed(probes, i, params, pidPort)
  {
    var p, v := probes[i], params.ipVersion;
    QuotedHeadersParse(e, h, t, v, kind, ProtoNumber(p.protocol, v), p.local.ip, p.remote.ip);
    var parsed := ParseIcmp(e + h + t, v).value;
    FindsUnique(probes, i);
    hide ParseIcmp, FirstWith, LabelsOf;
    match p.protocol {
      case Icmp =>
        var c: u16 :| t[..8] == EchoHeader(v, icmpId, p.sequence, c);
        IcmpTransportParses(v, icmpId, p.sequence, c, p.local.ip, p.remote.ip, t);
      case Udp =>
        var ports := PortsFor(params, p.sequence, pidPort);
        var len: u16, c: u16 :|
          t[..8] == UdpHeader(ports, len, c) && (ports.checksumIsSequence ==> c == p.sequence);
        UdpTransportParses(ports, len, c, p.local.ip, p.remote.ip, t);
        UdpMatches(probes, i, params, pidPort, c, Some((p.local.ip, p.remote.ip)));
        assert MatchIndex(probes, parsed, icmpId)
            == MatchUdp(probes, ports.src, ports.dst, c, Some((p.local.ip, p.remote.ip)));
      case _ =>
        assert InnerTransport(ProtoNumber(p.protocol, v), p.local.ip, p.remote.ip, t) == Some(InnerStream(p.sequence));
    }
  }

  /** Fixed ports below the sequence range shadow nothing. */
  lemma LowPortsAreNotShadowed(probes: seq<LiveProbe>, i: nat, params: CProbeParams, pidPort: u16)
    requires i < |probes|
    requires forall j :: 0 <= j < |probes| ==> probes[j].sequence >= MIN_PORT
    requires params.destPort % 0x1_0000 < MIN_PORT && params.localPort % 0x1_0000 < MIN_PORT
    ensures !Shadowed(probes, i, params, pidPort)
  {
  }

  /** A fixed port inside the range does shadow: whenever a UDP probe goes to a port that is another
      live probe's sequence, no quotation of it is ever matched to it. */
  lemma FixedPortCanShadow(a: LiveProbe, b: LiveProbe, params: CProbeParams, pidPort: u16, icmpId: u16,
                           e: seq<byte>, h: seq<byte>, t: seq<byte>, kind: IcmpKind)
    requires a.protocol == Udp && a.sequence != b.sequence
    requires params.destPort == b.sequence && b.sequence >= MIN_PORT
    requires SentAs(a, params, pidPort, icmpId, t)
    requires IsErrorHeader(e, params.ipVersion, kind)
    requires IsIpHeader(h, params.ipVersion, IPPROTO_UDP, a.local.ip, a.remote.ip)
    ensures Shadowed([a, b], 0, params, pidPort)
    ensures ParseIcmp(e + h + t, params.ipVersion).Some?
    ensures var m := MatchReply([a, b], ParseIcmp(e + h + t, params.ipVersion).value, params.ipVersion, icmpId);
            m.Some? ==> m.value.0 != 0
  {
    assert [a, b][1].sequence == PortsFor(params, a.sequence, pidPort).dst;
    assert [a, b][0] == a;
    QuotedHeadersParse(e, h, t, params.ipVersion, kind, IPPROTO_UDP, a.local.ip, a.remote.ip);
    hide SentAs, IsErrorHeader, IsIpHeader, ParseIcmp, MatchIndex;
    QuotedProbeIsFoundIff([a, b], 0, params, pidPort, icmpId, e, h, t, kind);
  }

  /** Our own echo request, answered: the reply names the probe and the word is `reply`. */
  lemma EchoReplyIsFound(probes: seq<LiveProbe>, i: nat, version: byte, icmpId: u16, reply: seq<byte>)
    requires i < |probes| && UniqueSequence(probes, i)
    requires |reply| >= ICMP_HEADER && reply[0] == (if version == 6 then ICMP6_ECHOREPLY else ICMP_ECHOREPLY)
    requires reply[4..8] == EchoHeader(version, icmpId, probes[i].sequence, 0)[4..8]
    ensures ParseIcmp(reply, version).Some?
    ensures MatchReply(probes, ParseIcmp(reply, version).value, version, icmpId) == Some((i, Reply))
  {
    var w := reply[4..8];
    assert reply[4] == w[0] && reply[5] == w[1] && reply[6] == w[2] && reply[7] == w[3];
    Reads16(reply, 4, icmpId);
    Reads16(reply, 6, probes[i].sequence);
    FindsUnique(probes, i);
  }

  /** A raw IPv4 socket prepends an IP header of any length; parsing skips exactly that. */
  lemma OuterHeaderIsSkipped(outer: seq<byte>, icmp: seq<byte>, src: IpAddr, dst: IpAddr)
    requires IsIpHeader(outer, 4, IPPROTO_ICMP, src, dst) && |icmp| >= ICMP_HEADER
    ensures ParseIcmp4(outer + icmp, true) == ParseIcmp4(icmp, false)
  {
    assert (outer + icmp)[|outer|..] == icmp;
  }

  /** A message padded to the 128-byte quotation, an extension header of version 2, any foreign
      objects and an MPLS object: the labels are those the router encoded, first eight. */
  lemma QuotationCarriesLabels(e: seq<byte>, quoted: seq<byte>, ext: seq<byte>, objects: seq<Foreign>,
                               labels: seq<MplsLabel>, tail: seq<byte>, rest: seq<byte>)
    requires |e| == ICMP_HEADER && |quoted| == ICMP_ORIGINAL_DATAGRAM_MIN_SIZE
    requires |ext| == ICMP_EXT_HEADER && ext[0] / 16 == 2
    requires forall k :: 0 <= k < |objects| ==> IsForeign(objects[k])
    requires OnTheWire(labels) && |tail| < 4 && 4 * |labels| + |tail| + 4 < 0x1_0000
    ensures LabelsOf(e + quoted + ext + (Chain(objects) + Object(1, 1, EncodeLabels(labels) + tail) + rest))
            == labels[..Min(|labels|, MAX_LABELS)]
  {
    var objs := Chain(objects) + Object(1, 1, EncodeLabels(labels) + tail) + rest;
    var icmp := e + quoted + ext + objs;
    WalksToMpls(objects, labels, tail, rest);
    assert icmp[EXT_AT] == ext[0];
    assert icmp[EXT_AT + ICMP_EXT_HEADER..] == objs;
  }

  // ----- Whoever is found was meant -----

  /** What a parsed message says about the entry it is matched to: an ICMP identifier that is ours
      with the entry's number, the addresses and ports of a UDP probe with its number in one of the
      three places, or a stream's source port that is the number. */
  predicate Names(parsed: Parsed, p: LiveProbe, icmpId: u16) {
    match parsed.echo
    case Some((id, sequence)) => id == icmpId && sequence == p.sequence
    case None =>
      match parsed.inner
      case None => false
      case Some(InnerIcmp(id, sequence)) => id == icmpId && sequence == p.sequence
      case Some(InnerUdp(src, dst, srcPort, dstPort, checksum)) =>
        && p.protocol == Udp && src == p.local.ip && dst == p.remote.ip
        && srcPort == p.local.port && dstPort == p.remote.port && p.sequence in {dstPort, srcPort, checksum}
      case Some(InnerStream(port)) => port == p.sequence
  }

  /** The converse of finding: a matched entry is named by the message, and is the first entry with
      its number. */
  lemma MatchedEntryIsNamed(probes: seq<LiveProbe>, parsed: Parsed, version: byte, icmpId: u16)
    requires MatchReply(probes, parsed, version, icmpId).Some?
    ensures var i := MatchReply(probes, parsed, version, icmpId).value.0;
            Names(parsed, probes[i], icmpId) && forall j :: 0 <= j < i ==> probes[j].sequence != probes[i].sequence
  {
  }

  /** So a message that names no entry is nobody's. */
  lemma ForeignMessageIsIgnored(probes: seq<LiveProbe>, parsed: Parsed, version: byte, icmpId: u16)
    requires forall i :: 0 <= i < |probes| ==> !Names(parsed, probes[i], icmpId)
    ensures MatchReply(probes, parsed, version, icmpId) == None
  {
    hide MatchIndex, Names;
    if MatchReply(probes, parsed, version, icmpId).Some? {
      MatchedEntryIsNamed(probes, parsed, version, icmpId);
    }
  }

  /** An instance: the echo reply of another process, with our probe's number and its own identifier. */
  lemma OtherProcessesEchoIsIgnored(p: LiveProbe, icmpId: u16, otherId: u16, mpls: seq<MplsLabel>, version: byte)
    requires otherId != icmpId
    ensures MatchReply([p], Parsed(EchoReply, Some((otherId, p.sequence)), None, mpls), version, icmpId) == None
  {
    ForeignMessageIsIgnored([p], Parsed(EchoReply, Some((otherId, p.sequence)), None, mpls), version, icmpId);
  }

  /** ICMP and ICMPv6 type numbers of replies and errors (RFC 792, RFC 4443). */
  predicate IsEchoReplyType(t: byte, version: byte) {
    t == if version == 6 then 129 else 0
  }

  predicate IsErrorType(t: byte, version: byte) {
    if version == 6 then t in {1, 3} else t in {3, 11}
  }

  /** The transport bytes a router quoted, read as an identity. */
  predicate QuotesIdentity(p: LiveProbe, icmpId: u16, proto: byte, src: IpAddr, dst: IpAddr, t: seq<byte>)
    requires |t| >= 8
  {
    if proto in {1, 58} then Be16(t, 4) == icmpId && Be16(t, 6) == p.sequence
    else if proto == 17 then
      && p.protocol == Udp && src == p.local.ip && dst == p.remote.ip
      && Be16(t, 0) == p.local.port && Be16(t, 2) == p.remote.port
      && p.sequence in {Be16(t, 2), Be16(t, 0), Be16(t, 6)}
    else proto in {6, 132} && Be16(t, 0) == p.sequence
  }

  /** The converse of quoting: an error message with something readable inside is eight bytes of an
      error type, a whole IP header, and at least eight bytes of transport. */
  lemma ParsedQuotationIsWhole(icmp: seq<byte>, version: byte)
      returns (h: seq<byte>, t: seq<byte>, proto: byte, src: IpAddr, dst: IpAddr)
    requires ParseIcmp(icmp, version).Some? && ParseIcmp(icmp, version).value.inner.Some?
    ensures |icmp| >= 8 && IsErrorType(icmp[0], version)
    ensures icmp == icmp[..8] + h + t && |t| >= 8 && IsIpHeader(h, version, proto, src, dst)
    ensures ParseIcmp(icmp, version).value.inner == InnerTransport(proto, src, dst, t)
  {
    hide LabelsOf, InnerTransport;
    var body := icmp[8..];
    var len := if version == 6 then 40 else Ip4HeaderLen(body).value;
    h, t := body[..len], body[len..];
    assert body == h + t && icmp == icmp[..8] + body;
    if version == 6 {
      proto, src, dst := body[6], V6(body[8..24]), V6(body[24..40]);
      assert h[8..24] == body[8..24] && h[24..40] == body[24..40];
    } else {
      proto, src, dst := body[9], V4(body[12..16]), V4(body[16..20]);
      assert h[12..16] == body[12..16] && h[16..20] == body[16..20];
    }
  }

  /** For all bytes: a message that is matched to an entry is an echo reply with our identifier and
      the entry's number, or an error that quotes the entry's identity in a whole IP packet. */
  lemma MatchedBytesNameTheirProbe(probes: seq<LiveProbe>, icmp: seq<byte>, version: byte, icmpId: u16)
      returns (h: seq<byte>, t: seq<byte>, proto: byte, src: IpAddr, dst: IpAddr)
    requires ParseIcmp(icmp, version).Some?
    requires MatchReply(probes, ParseIcmp(icmp, version).value, version, icmpId).Some?
    ensures |icmp| >= 8
    ensures var (i, word) := MatchReply(probes, ParseIcmp(icmp, version).value, version, icmpId).value;
            if IsEchoReplyType(icmp[0], version)
            then Be16(icmp, 4) == icmpId && Be16(icmp, 6) == probes[i].sequence && word == Reply
            else && IsErrorType(icmp[0], version)
                 && icmp == icmp[..8] + h + t && |t| >= 8 && IsIpHeader(h, version, proto, src, dst)
                 && QuotesIdentity(probes[i], icmpId, proto, src, dst, t)
  {
    var parsed := ParseIcmp(icmp, version).value;
    MatchedEntryIsNamed(probes, parsed, version, icmpId);
    h, t, proto, src, dst := [], [], 0, UNSPECIFIED.ip, UNSPECIFIED.ip;
    hide LabelsOf, MatchIndex;
    if parsed.echo.None? {
      h, t, proto, src, dst := ParsedQuotationIsWhole(icmp, version);
      hide ParseIcmp, IsIpHeader;
    }
  }

  /** A message with an outer IPv4 header counts only if that header is whole and says ICMP. */
  lemma OuterHeaderMustBeIcmp(packet: seq<byte>)
    requires ParseIcmp4(packet, true).Some?
    ensures exists n: nat :: && 20 <= n <= |packet| && n == (packet[0] % 16) as int * 4
                             && packet[0] / 16 == 4 && packet[9] == 1
                             && ParseIcmp4(packet, true) == ParseIcmp(packet[n..], 4)
  {
    hide ParseIcmp;
    var n := Ip4HeaderLen(packet).value;
    assert ParseIcmp4(packet, true) == ParseIcmp(packet[n..], 4);
  }
}
