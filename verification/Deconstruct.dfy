// From the bytes of an ICMP message to the table entry it concerns (deconstruct.rs).
module Deconstruct {
  import opened Common
  import opened Requests
  import opened Mpls
  import opened Responses
  import opened Construct
  import opened ProbeTables

  const ICMP_ORIGINAL_DATAGRAM_MIN_SIZE := 128
  const ICMP_EXT_HEADER := 4
  const ICMP_EXT_OBJECT := 4
  const EXT_AT := 136
  const ICMP_EXT_MPLS_CLASSNUM := 1
  const ICMP_EXT_MPLS_CTYPE := 1
  const ICMP_ECHOREPLY := 0
  const ICMP_DEST_UNREACH := 3
  const ICMP_TIME_EXCEEDED := 11
  const ICMP6_DEST_UNREACH := 1
  const ICMP6_TIME_EXCEEDED := 3
  const ICMP6_ECHOREPLY := 129
  const IPPROTO_ICMP := 1
  const IPPROTO_TCP := 6
  const IPPROTO_UDP := 17
  const IPPROTO_ICMPV6 := 58
  const IPPROTO_SCTP := 132

  datatype IcmpKind = EchoReply | TimeExceeded | DestUnreach(code: byte)

  datatype Inner =
    | InnerIcmp(id: u16, sequence: u16)
    | InnerUdp(src: IpAddr, dst: IpAddr, srcPort: u16, dstPort: u16, checksum: u16)
    | InnerStream(port: u16)

  datatype Parsed = Parsed(kind: IcmpKind, echo: Option<(u16, u16)>, inner: Option<Inner>, mpls: seq<MplsLabel>)

  // ----- MPLS extension objects -----

  /** One four-byte label stack entry (RFC 3032, section 2.1). */
  function LabelAt(b: seq<byte>): (l: MplsLabel)
    requires |b| >= 4
    ensures l.value < 0x10_0000 && l.tc < 8
  {
    MplsLabel((b[0] as int) * 4096 + (b[1] as int) * 16 + (b[2] / 16) as int, b[2] / 2 % 8, b[2] % 2 != 0, b[3])
  }

  /** The entries of an object's payload, at most `limit` of them. */
  function LabelsIn(b: seq<byte>, limit: nat): (r: seq<MplsLabel>)
    ensures |r| <= limit
    ensures forall i :: 0 <= i < |r| ==> r[i].value < 0x10_0000 && r[i].tc < 8
  {
    if limit == 0 || |b| < 4 then [] else [LabelAt(b)] + LabelsIn(b[4..], limit - 1)
  }

  /** RFC 4884 section 7: the chain of length-prefixed objects, up to the MPLS one. */
  function WalkObjects(objs: seq<byte>): (r: seq<MplsLabel>)
    ensures |r| <= MAX_LABELS
    ensures forall i :: 0 <= i < |r| ==> r[i].value < 0x10_0000 && r[i].tc < 8
    decreases |objs|
  {
    if |objs| < ICMP_EXT_OBJECT then []
    else
      var len := Be16(objs, 0);
      if len > |objs| || len < ICMP_EXT_OBJECT then []
      else if objs[2] == ICMP_EXT_MPLS_CLASSNUM && objs[3] == ICMP_EXT_MPLS_CTYPE then
        LabelsIn(objs[ICMP_EXT_OBJECT..len], MAX_LABELS)
      else WalkObjects(objs[len..])
  }

  function LabelsOf(icmp: seq<byte>): (r: seq<MplsLabel>)
    ensures |r| <= MAX_LABELS
    ensures forall i :: 0 <= i < |r| ==> r[i].value < 0x10_0000 && r[i].tc < 8
  {
    if |icmp| < EXT_AT + ICMP_EXT_HEADER || icmp[EXT_AT] / 16 != 2 then []
    else WalkObjects(icmp[EXT_AT + ICMP_EXT_HEADER..])
  }

  /** `as_chunks::<4>().take(8)`. */
  method ReadEntries(payload: seq<byte>) returns (labels: seq<MplsLabel>)
    ensures labels == LabelsIn(payload, MAX_LABELS)
  {
    hide LabelAt;
    labels := [];
    var at := 0;
    assert payload[0..] == payload;
    while at + 4 <= |payload| && |labels| < MAX_LABELS
      invariant 0 <= at <= |payload| && |labels| <= MAX_LABELS
      invariant labels + LabelsIn(payload[at..], MAX_LABELS - |labels|) == LabelsIn(payload, MAX_LABELS)
      decreases |payload| - at
    {
      assert payload[at..][4..] == payload[at + 4..];
      labels := labels + [LabelAt(payload[at..])];
      at := at + 4;
    }
  }

  /** `decode_mpls`: the loop narrows the slice object by object. */
  method DecodeMpls(icmp: seq<byte>) returns (labels: seq<MplsLabel>)
    ensures labels == LabelsOf(icmp)
  {
    if |icmp| < EXT_AT + ICMP_EXT_HEADER || icmp[EXT_AT] / 16 != 2 {
      return [];
    }
    var objs := icmp[EXT_AT + ICMP_EXT_HEADER..];
    while |objs| >= ICMP_EXT_OBJECT
      invariant WalkObjects(objs) == LabelsOf(icmp)
      decreases |objs|
    {
      var len := Be16(objs, 0);
      if len > |objs| || len < ICMP_EXT_OBJECT {
        return [];
      }
      if objs[2] == ICMP_EXT_MPLS_CLASSNUM && objs[3] == ICMP_EXT_MPLS_CTYPE {
        labels := ReadEntries(objs[ICMP_EXT_OBJECT..len]);
        return labels;
      }
      objs := objs[len..];
    }
    labels := [];
  }

  /** A router's encoding of one label stack entry. */
  function EncodeLabel(l: MplsLabel): (r: seq<byte>)
    requires l.value < 0x10_0000 && l.tc < 8
    ensures |r| == 4
  {
    [l.value / 4096, l.value / 16 % 256, l.value % 16 * 16 + l.tc * 2 + (if l.bottomOfStack then 1 else 0), l.ttl]
  }

  lemma LabelBits(value: nat, low: nat)
    requires value < 0x10_0000 && low < 16
    ensures value / 4096 * 4096 + value / 16 % 256 * 16 + (value % 16 * 16 + low) / 16 == value
  {
  }

  /** The third byte: four bits of the label, three of the traffic class, one flag. */
  lemma LowBits(high: nat, tc: nat, bit: nat)
    requires high < 16 && tc < 8 && bit < 2
    ensures (high * 16 + tc * 2 + bit) / 2 % 8 == tc && (high * 16 + tc * 2 + bit) % 2 == bit
  {
    assert (high * 16 + tc * 2 + bit) / 2 == high * 8 + tc;
  }

  lemma LabelRoundTrip(l: MplsLabel, rest: seq<byte>)
    requires l.value < 0x10_0000 && l.tc < 8
    ensures LabelAt(EncodeLabel(l) + rest) == l
  {
    var bit := if l.bottomOfStack then 1 else 0;
    LabelBits(l.value, l.tc * 2 + bit);
    LowBits(l.value % 16, l.tc, bit);
    assert EncodeLabel(l) == [l.value / 4096, l.value / 16 % 256, l.value % 16 * 16 + l.tc * 2 + bit, l.ttl];
    hide EncodeLabel;
  }

  predicate OnTheWire(labels: seq<MplsLabel>) {
    forall i :: 0 <= i < |labels| ==> labels[i].value < 0x10_0000 && labels[i].tc < 8
  }

  function EncodeLabels(labels: seq<MplsLabel>): (r: seq<byte>)
    requires OnTheWire(labels)
    ensures |r| == 4 * |labels|
  {
    if labels == [] then [] else EncodeLabel(labels[0]) + EncodeLabels(labels[1..])
  }

  /** A truncated last entry (fewer than four bytes) is not read. */
  lemma {:induction false} LabelsRoundTrip(labels: seq<MplsLabel>, tail: seq<byte>, limit: nat)
    requires OnTheWire(labels) && |tail| < 4
    ensures LabelsIn(EncodeLabels(labels) + tail, limit) == labels[..Min(|labels|, limit)]
  {
    var b := EncodeLabels(labels) + tail;
    if labels != [] && limit > 0 {
      LabelRoundTrip(labels[0], EncodeLabels(labels[1..]) + tail);
      assert b == EncodeLabel(labels[0]) + (EncodeLabels(labels[1..]) + tail);
      assert b[4..] == EncodeLabels(labels[1..]) + tail;
      LabelsRoundTrip(labels[1..], tail, limit - 1);
    } else if labels == [] {
      assert b == tail;
    }
  }

  /** An extension object: length, class, type, payload. */
  function Object(class_: byte, ctype: byte, payload: seq<byte>): seq<byte>
    requires |payload| + 4 < 0x1_0000
  {
    [Hi(|payload| + 4), Lo(|payload| + 4), class_, ctype] + payload
  }

  datatype Foreign = Foreign(class_: byte, ctype: byte, payload: seq<byte>)

  predicate IsForeign(f: Foreign) {
    |f.payload| + 4 < 0x1_0000 && !(f.class_ == ICMP_EXT_MPLS_CLASSNUM && f.ctype == ICMP_EXT_MPLS_CTYPE)
  }

  function Chain(objects: seq<Foreign>): seq<byte>
    requires forall i :: 0 <= i < |objects| ==> IsForeign(objects[i])
  {
    if objects == [] then []
    else
      assert IsForeign(objects[0]);
      Object(objects[0].class_, objects[0].ctype, objects[0].payload) + Chain(objects[1..])
  }

  lemma ObjectHead(class_: byte, ctype: byte, payload: seq<byte>, rest: seq<byte>)
    requires |payload| + 4 < 0x1_0000
    ensures var o := Object(class_, ctype, payload) + rest;
            && |o| == |payload| + 4 + |rest| && Be16(o, 0) == |payload| + 4
            && o[2] == class_ && o[3] == ctype && o[4..|payload| + 4] == payload && o[|payload| + 4..] == rest
  {
  }

  /** Any well-formed foreign objects, then an MPLS object, then anything: the walker returns the
      first eight entries that were encoded. */
  lemma {:induction false} WalksToMpls(objects: seq<Foreign>, labels: seq<MplsLabel>, tail: seq<byte>, rest: seq<byte>)
    requires forall i :: 0 <= i < |objects| ==> IsForeign(objects[i])
    requires OnTheWire(labels) && |tail| < 4 && 4 * |labels| + |tail| + 4 < 0x1_0000
    ensures WalkObjects(Chain(objects) + Object(1, 1, EncodeLabels(labels) + tail) + rest)
            == labels[..Min(|labels|, MAX_LABELS)]
  {
    var mpls := Object(1, 1, EncodeLabels(labels) + tail);
    if objects == [] {
      assert Chain(objects) + mpls + rest == mpls + rest;
      ObjectHead(1, 1, EncodeLabels(labels) + tail, rest);
      LabelsRoundTrip(labels, tail, MAX_LABELS);
    } else {
      var f := objects[0];
      assert IsForeign(f);
      var after := Chain(objects[1..]) + mpls + rest;
      assert Chain(objects) + mpls + rest == Object(f.class_, f.ctype, f.payload) + after;
      ObjectHead(f.class_, f.ctype, f.payload, after);
      WalksToMpls(objects[1..], labels, tail, rest);
    }
  }

  /** The converse: labels come out only if the message is long enough, says version 2, and has a
      chain of whole foreign objects followed by a whole MPLS object; and they are that object's. */
  lemma LabelsOnlyFromChains(icmp: seq<byte>) returns (objects: seq<Foreign>, payload: seq<byte>, rest: seq<byte>)
    requires LabelsOf(icmp) != []
    ensures |icmp| >= 140 && icmp[136] / 16 == 2
    ensures forall k :: 0 <= k < |objects| ==> IsForeign(objects[k])
    ensures |payload| + 4 < 0x1_0000
    ensures icmp[140..] == Chain(objects) + Object(1, 1, payload) + rest && LabelsOf(icmp) == LabelsIn(payload, 8)
  {
    objects, payload, rest := WalkedChain(icmp[140..]);
  }

  lemma {:induction false} WalkedChain(objs: seq<byte>) returns (objects: seq<Foreign>, payload: seq<byte>, rest: seq<byte>)
    requires WalkObjects(objs) != []
    ensures forall k :: 0 <= k < |objects| ==> IsForeign(objects[k])
    ensures |payload| + 4 < 0x1_0000
    ensures objs == Chain(objects) + Object(1, 1, payload) + rest && WalkObjects(objs) == LabelsIn(payload, 8)
    decreases |objs|
  {
    var len := Be16(objs, 0);
    ObjectFromBytes(objs);
    if objs[2] == 1 && objs[3] == 1 {
      objects, payload, rest := [], objs[4..len], objs[len..];
    } else {
      var tail;
      tail, payload, rest := WalkedChain(objs[len..]);
      objects := [Foreign(objs[2], objs[3], objs[4..len])] + tail;
      ChainGrows(objects[0], tail, Object(1, 1, payload), rest);
    }
  }

  lemma ChainGrows(head: Foreign, tail: seq<Foreign>, mpls: seq<byte>, rest: seq<byte>)
    requires IsForeign(head) && forall k :: 0 <= k < |tail| ==> IsForeign(tail[k])
    ensures forall k :: 0 <= k < |tail| + 1 ==> IsForeign(([head] + tail)[k])
    ensures Chain([head] + tail) + mpls + rest
            == Object(head.class_, head.ctype, head.payload) + (Chain(tail) + mpls + rest)
  {
    ChainCons(head, tail);
    hide Object, Chain, IsForeign;
    FourParts(Object(head.class_, head.ctype, head.payload), Chain(tail), mpls, rest);
  }

  lemma ChainCons(head: Foreign, tail: seq<Foreign>)
    requires IsForeign(head) && forall k :: 0 <= k < |tail| ==> IsForeign(tail[k])
    ensures forall k :: 0 <= k < |tail| + 1 ==> IsForeign(([head] + tail)[k])
    ensures Chain([head] + tail) == Object(head.class_, head.ctype, head.payload) + Chain(tail)
  {
    hide Object;
    assert ([head] + tail)[1..] == tail;
  }

  lemma FourParts(a: seq<byte>, b: seq<byte>, c: seq<byte>, d: seq<byte>)
    ensures a + b + c + d == a + (b + c + d)
  {
  }

  lemma ObjectFromBytes(objs: seq<byte>)
    requires |objs| >= 4 && 4 <= Be16(objs, 0) <= |objs|
    ensures objs == Object(objs[2], objs[3], objs[4..Be16(objs, 0)]) + objs[Be16(objs, 0)..]
  {
    var len := Be16(objs, 0);
    assert Hi(len) == objs[0] && Lo(len) == objs[1];
    assert objs == objs[..4] + objs[4..len] + objs[len..];
  }

  // ----- Quoted datagrams -----

  /** The IPv4 header length from its IHL field. */
  function Ip4HeaderLen(ip: seq<byte>): (r: Option<nat>)
    ensures r.Some? ==> IP4_HEADER <= r.value <= |ip|
  {
    if |ip| < IP4_HEADER || ip[0] / 16 != 4 then None
    else
      var len := ip[0] % 16 * 4;
      if len < IP4_HEADER || len > |ip| then None else Some(len)
  }

  function InnerTransport(proto: byte, src: IpAddr, dst: IpAddr, t: seq<byte>): Option<Inner> {
    if |t| < 8 then None
    else if proto == IPPROTO_ICMP || proto == IPPROTO_ICMPV6 then Some(InnerIcmp(Be16(t, 4), Be16(t, 6)))
    else if proto == IPPROTO_UDP then Some(InnerUdp(src, dst, Be16(t, 0), Be16(t, 2), Be16(t, 6)))
    else if proto == IPPROTO_TCP || proto == IPPROTO_SCTP then Some(InnerStream(Be16(t, 0)))
    else None
  }

  function Inner4(ip: seq<byte>): Option<Inner> {
    var len :- Ip4HeaderLen(ip);
    if |ip| < len + ICMP_HEADER then None
    else InnerTransport(ip[9], V4(ip[12..16]), V4(ip[16..20]), ip[len..])
  }

  function Inner6(ip: seq<byte>): Option<Inner> {
    if |ip| < IP6_HEADER + ICMP_HEADER then None
    else InnerTransport(ip[6], V6(ip[8..24]), V6(ip[24..40]), ip[IP6_HEADER..])
  }

  function KindOf(icmp: seq<byte>, version: byte): Option<IcmpKind>
    requires |icmp| >= ICMP_HEADER
  {
    var (echo, exceeded, unreach) :=
      if version == 6 then (ICMP6_ECHOREPLY, ICMP6_TIME_EXCEEDED, ICMP6_DEST_UNREACH)
      else (ICMP_ECHOREPLY, ICMP_TIME_EXCEEDED, ICMP_DEST_UNREACH);
    if icmp[0] == echo then Some(EchoReply)
    else if icmp[0] == exceeded then Some(TimeExceeded)
    else if icmp[0] == unreach then Some(DestUnreach(icmp[1]))
    else None
  }

  function ParseIcmp(icmp: seq<byte>, version: byte): Option<Parsed> {
    if |icmp| < ICMP_HEADER then None
    else
      var kind :- KindOf(icmp, version);
      if kind.EchoReply? then Some(Parsed(kind, Some((Be16(icmp, 4), Be16(icmp, 6))), None, LabelsOf(icmp)))
      else
        var body := icmp[ICMP_HEADER..];
        Some(Parsed(kind, None, if version == 6 then Inner6(body) else Inner4(body), LabelsOf(icmp)))
  }

  function ParseIcmp4(packet: seq<byte>, hasIpHeader: bool): Option<Parsed> {
    if hasIpHeader then
      var len :- Ip4HeaderLen(packet);
      if |packet| < len + ICMP_HEADER || packet[9] != IPPROTO_ICMP then None else ParseIcmp(packet[len..], 4)
    else ParseIcmp(packet, 4)
  }

  // ----- Matching -----

  function PortUnreachCode(version: byte): byte {
    if version == 6 then 4 else 3
  }

  function ResultWord(kind: IcmpKind, version: byte): ProbeResult {
    match kind
    case EchoReply => Reply
    case TimeExceeded => TtlExpired
    case DestUnreach(code) => if code == PortUnreachCode(version) then Reply else NoRouteHost
  }

  /** Destination port, source port, checksum: whichever is some live number first settles the entry. */
  function UdpCandidate(probes: seq<LiveProbe>, srcPort: u16, dstPort: u16, checksum: u16): (r: Option<nat>)
    ensures r.Some? ==> r.value < |probes|
  {
    if FirstWith(probes, dstPort).Some? then FirstWith(probes, dstPort)
    else if FirstWith(probes, srcPort).Some? then FirstWith(probes, srcPort)
    else FirstWith(probes, checksum)
  }

  function MatchUdp(probes: seq<LiveProbe>, srcPort: u16, dstPort: u16, checksum: u16,
                    addrs: Option<(IpAddr, IpAddr)>): (r: Option<nat>)
    ensures r.Some? ==> r.value < |probes|
  {
    var idx :- UdpCandidate(probes, srcPort, dstPort, checksum);
    var p := probes[idx];
    if p.protocol != Udp || dstPort != p.remote.port || srcPort != p.local.port then None
    else
      match addrs
      case Some((src, dst)) => if dst != p.remote.ip || src != p.local.ip then None else Some(idx)
      case None => Some(idx)
  }

  function MatchIndex(probes: seq<LiveProbe>, parsed: Parsed, icmpId: u16): (r: Option<nat>)
    ensures r.Some? ==> r.value < |probes|
  {
    match parsed.echo
    case Some((id, sequence)) => if id != icmpId then None else FirstWith(probes, sequence)
    case None =>
      match parsed.inner
      case None => None
      case Some(InnerIcmp(id, sequence)) => if id != icmpId then None else FirstWith(probes, sequence)
      case Some(InnerUdp(src, dst, srcPort, dstPort, checksum)) =>
        MatchUdp(probes, srcPort, dstPort, checksum, Some((src, dst)))
      case Some(InnerStream(port)) => FirstWith(probes, port)
  }

  /** `match_reply`. */
  function MatchReply(probes: seq<LiveProbe>, parsed: Parsed, version: byte, icmpId: u16): (r: Option<(nat, ProbeResult)>)
    ensures r.Some? ==> r.value.0 < |probes|
  {
    var idx :- MatchIndex(probes, parsed, icmpId);
    Some((idx, ResultWord(parsed.kind, version)))
  }
}
