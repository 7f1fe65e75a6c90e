// The dispatcher (command.rs): one protocol line in, at most one reply out, and either the reply or
// a live probe carries the line's token.
module Helpers {
  import opened Common
  import opened Tokenizer
  import opened Requests
  import opened Cdecode
  import opened Responses
  import opened Construct
  import opened ProbeTables
  import opened ProbeIdentity
  import opened UnixBackend
  import opened CommandBuffers

  /** What the system does while one probe is sent: how its addresses resolve, whether the family
      has raw sockets, how the datagram's send ends, how each attempt to open a stream ends. */
  datatype SendEnv = SendEnv(resolved: Result<(IpAddr, IpAddr), Errno>, isRaw: bool, departure: int,
                             sendError: Option<Errno>, opens: nat -> OpenOutcome)

  ghost predicate Plausible(env: SendEnv) {
    && (env.resolved.Ok? ==> WellFormedIp(env.resolved.value.0) && WellFormedIp(env.resolved.value.1))
    && forall k :: WellFormedOpen(env.opens(k))
  }

  /** The token a line is answered under: 0 when it cannot be tokenized. */
  function LineToken(line: string): i32 {
    match Tokenize(line)
    case Ok(l) => l.token
    case Err(_) => 0
  }

  const PARSE_ERROR := Response(0, Bare(CommandParseError))

  /** A probe that went out: its table entry, what was asked for, and the bytes handed to the socket
      (none for a stream, whose packets the kernel builds). */
  datatype LaunchRecord = LaunchRecord(probe: LiveProbe, params: CProbeParams, wire: seq<byte>)

  /** What becomes of one line: it is answered, or its probe is out and owes the answer. */
  datatype LineResult = Answered(reply: Response) | Launching(launch: LaunchRecord)

  function ResultTokenOf(r: LineResult): i32 {
    match r
    case Answered(reply) => reply.token
    case Launching(l) => l.probe.token
  }

  predicate IsStream(p: Protocol) {
    p == Tcp || p == Sctp
  }

  /** The reply to a `send-probe` whose probe could not be sent. A stream that was refused counts as
      an answer from the destination. */
  function FailureReply(token: i32, p: Protocol, e: Errno, now: int, env: SendEnv): Response {
    if e == ECONNREFUSED && IsStream(p) then
      Response(token, ResponseKind.Probe(Reply, if env.resolved.Ok? then env.resolved.value.0 else UNSPECIFIED.ip,
                                         RttUs(if env.resolved.Ok? then env.departure else now, now), []))
    else Response(token, ErrorKind(e))
  }

  class Helper {
    const table: ProbeTable
    const v4: bool
    const v6: bool
    const sctp: bool
    const mark: bool
    const icmpId: u16
    const pid: nat
    const version: string

    constructor (v4: bool, v6: bool, sctp: bool, mark: bool, icmpId: u16, pid: nat, version: string)
      ensures fresh(table) && table.Valid() && table.probes == []
      ensures this.v4 == v4 && this.v6 == v6 && this.sctp == sctp && this.mark == mark
      ensures this.icmpId == icmpId && this.pid == pid && this.version == version
    {
      table := new ProbeTable();
      this.v4, this.v6, this.sctp, this.mark := v4, v6, sctp, mark;
      this.icmpId, this.pid, this.version := icmpId, pid, version;
    }

    predicate IpVersionSupported(v: byte) {
      (v == 4 && v4) || (v == 6 && v6)
    }

    predicate ProtocolSupported(p: Protocol) {
      p != Sctp || sctp
    }

    function SupportString(feature: string): string {
      match ParseFeature(feature)
      case Some(Version) => version
      case Some(Ip4) => if IpVersionSupported(4) then "ok" else "no"
      case Some(Ip6) => if IpVersionSupported(6) then "ok" else "no"
      case Some(SctpProbes) => if sctp then "ok" else "no"
      case Some(Mark) => if mark then "ok" else "no"
      case Some(_) => "ok"
      case None => "no"
    }

    /** The reply that ends a `send-probe` before anything is sent, if there is one. */
    function Refusal(l: Line, live: nat): Option<Response> {
      match DecodeArgs(l.args)
      case Err(_) => Some(Response(l.token, ResponseKind.InvalidArgument(None)))
      case Ok(p) =>
        if !IpVersionSupported(p.ipVersion) then
          Some(Response(l.token, ResponseKind.InvalidArgument(Some(IpVersionNotSupported))))
        else if !ProtocolSupported(p.protocol) then
          Some(Response(l.token, ResponseKind.InvalidArgument(Some(ProtocolNotSupported))))
        else if live >= MAX_PROBES then Some(Response(l.token, Bare(ProbesExhausted)))
        else None
    }

    /** What each `check-support` is answered. */
    lemma SupportWords(feature: string)
      ensures SupportString("ip-4") == (if v4 then "ok" else "no") && SupportString("ip-6") == (if v6 then "ok" else "no")
      ensures SupportString("sctp") == (if sctp then "ok" else "no")
      ensures SupportString("mark") == (if mark then "ok" else "no")
      ensures SupportString("icmp") == SupportString("udp") == SupportString("tcp") == SupportString("send-probe") == "ok"
      ensures SupportString("version") == version
      ensures ParseFeature(feature).None? ==> SupportString(feature) == "no"
    {
    }

    function FamilyFeature(p: CProbeParams): string {
      if p.ipVersion == 4 then "ip-4" else "ip-6"
    }

    predicate RefusedFor(l: Line, live: nat, reason: InvalidReason) {
      Refusal(l, live) == Some(Response(l.token, ResponseKind.InvalidArgument(Some(reason))))
    }

    /** What the helper announces is what it accepts: a request that decodes is refused for its address
        family exactly when it names none or that family's feature is answered "no"; with a supported
        family it is refused for its protocol exactly when that feature is answered "no"; and then for
        lack of room exactly when the table is full. */
    lemma AnnouncesWhatItAccepts(l: Line, live: nat)
      requires DecodeArgs(l.args).Ok?
      ensures var p := DecodeArgs(l.args).value;
              && (RefusedFor(l, live, IpVersionNotSupported)
                  <==> p.ipVersion !in {4, 6} || SupportString(FamilyFeature(p)) == "no")
              && (RefusedFor(l, live, ProtocolNotSupported)
                  <==> !RefusedFor(l, live, IpVersionNotSupported) && SupportString(ProtocolText(p.protocol)) == "no")
              && (Refusal(l, live) == Some(Response(l.token, Bare(ProbesExhausted)))
                  <==> !RefusedFor(l, live, IpVersionNotSupported) && !RefusedFor(l, live, ProtocolNotSupported)
                       && live >= 10240)
              && (Refusal(l, live).None?
                  <==> !RefusedFor(l, live, IpVersionNotSupported) && !RefusedFor(l, live, ProtocolNotSupported)
                       && live < 10240)
    {
      SupportWords("");
      hide SupportString, DecodeArgs;
      ProtocolFeature(DecodeArgs(l.args).value.protocol);
    }

    lemma ProtocolFeature(p: Protocol)
      ensures SupportString(ProtocolText(p)) == if p == Sctp then SupportString("sctp") else "ok"
    {
      SupportWords("");
      hide SupportString;
    }

    /** A stream that was refused is a reply from the destination after the time that passed; every
        other failure is the word for its error. */
    lemma FailedSendIsReported(l: Line, live: nat, now: int, env: SendEnv)
      requires Refusal(l, live).None? && SendReply(l, live, now, env).Some?
      requires SendResult(DecodeArgs(l.args).value, env).Err?
      ensures var p, e := DecodeArgs(l.args).value, SendResult(DecodeArgs(l.args).value, env).error;
              var r := SendReply(l, live, now, env).value;
              && r.token == l.token
              && (if e == ECONNREFUSED && p.protocol in {Tcp, Sctp} && env.resolved.Ok?
                  then && r.kind.Probe? && r.kind.result == ProbeResult.Reply && r.kind.addr == env.resolved.value.0
                       && r.kind.mpls == [] && TimePassed(env.departure, now, r.kind.rtt)
                  else e != ECONNREFUSED || p.protocol !in {Tcp, Sctp} ==> r.kind == ErrorKind(e))
    {
      hide SendResult, DecodeArgs, Refusal;
      RttIsTimePassed(env.departure, now);
    }

    /** How sending ends, given what the system does. */
    function SendResult(params: CProbeParams, env: SendEnv): Result<(), Errno> {
      if params.remoteAddress.None? then Err(EINVAL)
      else if env.resolved.Err? then Err(env.resolved.error)
      else if !IsStream(params.protocol) then
        if PacketSizeOf(params, env.isRaw).None? then Err(EINVAL)
        else if env.sendError.Some? then Err(env.sendError.value)
        else Ok(())
      else if params.protocol == Sctp && !sctp then Err(EINVAL)
      else match OpenResult(env.opens, 0) case Ok(_) => Ok(()) case Err(e) => Err(e)
    }

    /** When sending succeeds, and with what error it fails: the system's, or an invalid argument for
        what the helper itself cannot do. */
    lemma SendSucceedsIff(params: CProbeParams, env: SendEnv)
      requires Plausible(env)
      ensures var stream := params.protocol in {Tcp, Sctp};
              var r := SendResult(params, env);
              && (r.Ok? <==> && params.remoteAddress.Some? && env.resolved.Ok?
                             && (!stream ==> PacketSizeOf(params, env.isRaw).Some? && env.sendError.None?)
                             && (stream ==> (params.protocol == Sctp ==> sctp) && exists k :: FirstOpen(env, k)))
              && (r.Err? ==> r.error == EINVAL || env.resolved == Err(r.error)
                             || (if stream then
                                   exists k :: 0 <= k < 32101 && env.opens(k) in {PortTaken(r.error), OpenFailed(r.error)}
                                 else env.sendError == Some(r.error)))
              && (params.remoteAddress.None? ==> r == Err(EINVAL))
              && (params.remoteAddress.Some? && env.resolved.Err? ==> r == Err(env.resolved.error))
    {
      OpenResultIs(env, 0);
    }

    /** Attempt `k` opens, after attempts that all met a taken port. */
    ghost predicate FirstOpen(env: SendEnv, k: int) {
      0 <= k < 32101 && env.opens(k).Opened? && forall j: nat :: j < k ==> env.opens(j).PortTaken?
    }

    lemma {:induction false} OpenResultIs(env: SendEnv, from: nat)
      requires from < 32101 && forall j: nat :: j < from ==> env.opens(j).PortTaken?
      ensures OpenResult(env.opens, from).Ok? <==> exists k :: FirstOpen(env, k)
      ensures OpenResult(env.opens, from).Err? ==>
                exists k :: 0 <= k < 32101
                            && env.opens(k) in {PortTaken(OpenResult(env.opens, from).error),
                                                OpenFailed(OpenResult(env.opens, from).error)}
      decreases 32101 - from
    {
      match env.opens(from) {
        case Opened(_) => assert FirstOpen(env, from);
        case OpenFailed(e) => assert env.opens(from) in {PortTaken(e), OpenFailed(e)};
        case PortTaken(e) =>
          assert env.opens(from) in {PortTaken(e), OpenFailed(e)};
          if from + 1 < 32101 {
            OpenResultIs(env, from + 1);
          }
      }
    }

    /** The immediate reply to a `send-probe`, unless its probe goes out. */
    function SendReply(l: Line, live: nat, now: int, env: SendEnv): Option<Response> {
      if Refusal(l, live).Some? then Refusal(l, live)
      else
        var params := DecodeArgs(l.args).value;
        match SendResult(params, env)
        case Ok(_) => None
        case Err(e) => Some(FailureReply(l.token, params.protocol, e, now, env))
    }

    /** The immediate reply to any line, unless it sends a probe out. */
    function Reply(line: string, live: nat, now: int, env: SendEnv): Option<Response> {
      match Tokenize(line)
      case Err(_) => Some(PARSE_ERROR)
      case Ok(l) =>
        if l.name == "check-support" then
          Some(Response(l.token,
                        match First(l.args, "feature")
                        case None => ResponseKind.InvalidArgument(None)
                        case Some(f) => FeatureSupport(SupportString(f))))
        else if l.name == "send-probe" then SendReply(l, live, now, env)
        else Some(Response(l.token, Bare(UnknownName)))
    }

    /** The bytes sent carry the identity the table entry remembers. */
    ghost predicate Carries(l: LaunchRecord) {
      && l.probe.protocol == l.params.protocol
      && (if IsStream(l.probe.protocol) then l.probe.stream.Some? && l.probe.local.port == l.probe.sequence
          else l.probe.stream.None? && SentAs(l.probe, l.params, UdpSourcePortFromPid(pid), icmpId, l.wire))
    }

    /** The entry holds the resolved addresses, the moment of departure, and for ICMP and streams the
        ports that go with them. */
    ghost predicate Addressed(p: LiveProbe, params: CProbeParams, env: SendEnv) {
      && env.resolved.Ok?
      && p.remote.ip == env.resolved.value.0 && p.local.ip == env.resolved.value.1 && p.departure == env.departure
      && (p.protocol == Icmp ==> p.remote.port == 0 && p.local.port == if env.isRaw then 0 else icmpId)
      && (IsStream(p.protocol) ==> p.remote.port == (if params.destPort != 0 then params.destPort % 0x1_0000 else 80)
                                   && OpenResult(env.opens, 0).Ok? && p.stream == Some(OpenResult(env.opens, 0).value))
    }

    /** The probe this line sent out. */
    ghost predicate Began(line: string, now: int, env: SendEnv, l: LaunchRecord) {
      && Tokenize(line).Ok?
      && var request := Tokenize(line).value;
         && request.name == "send-probe" && DecodeArgs(request.args) == Ok(l.params)
         && l.probe.token == request.token && l.probe.timeoutAt == now + Max(l.params.timeout, 0) * 1_000_000
         && Carries(l) && Addressed(l.probe, l.params, env)
    }

    /** A line and its result fit, with `live` probes outstanding when it came. */
    ghost predicate LineOk(line: string, live: nat, now: int, env: SendEnv, r: LineResult) {
      match Reply(line, live, now, env)
      case Some(reply) => r == Answered(reply)
      case None => r.Launching? && Began(line, now, env, r.launch)
    }

    /** Either way the result carries the token of the line. */
    lemma ResultToken(line: string, live: nat, now: int, env: SendEnv, r: LineResult)
      requires LineOk(line, live, now, env, r)
      ensures ResultTokenOf(r) == LineToken(line)
    {
      hide Carries, Addressed, DecodeArgs, SendResult, SupportString;
    }

    /** `UnixBackend::send_probe` over table entry `idx`. */
    method Launch(idx: nat, params: CProbeParams, env: SendEnv) returns (r: Result<(), Errno>, ghost wire: seq<byte>)
      requires table.Valid() && idx < |table.probes| && table.draws[idx] == table.total - 1
      requires Plausible(env) && table.probes[idx].stream.None? && table.probes[idx].remote.ip == UNSPECIFIED.ip
      modifies table
      ensures table.Valid() && |table.probes| == |old(table.probes)|
      ensures table.probes == old(table.probes)[idx := table.probes[idx]]
      ensures table.probes[idx].token == old(table.probes[idx]).token
      ensures table.probes[idx].timeoutAt == old(table.probes[idx]).timeoutAt
      ensures r == SendResult(params, env)
      ensures r.Ok? ==> Carries(LaunchRecord(table.probes[idx], params, wire)) && Addressed(table.probes[idx], params, env)
      ensures r.Err? && params.remoteAddress.Some? ==>
                && table.probes[idx].remote.ip == (if env.resolved.Ok? then env.resolved.value.0 else UNSPECIFIED.ip)
                && table.probes[idx].departure
                   == if env.resolved.Ok? then env.departure else old(table.probes[idx]).departure
    {
      hide SentAs, DecodeArgs;
      wire := [];
      if params.remoteAddress.None? {
        return Err(EINVAL), wire;
      }
      if env.resolved.Err? {
        return Err(env.resolved.error), wire;
      }
      var (remote, local) := env.resolved.value;
      var localPort: u16 := if params.protocol == Icmp && !env.isRaw then icmpId else 0;
      var p := table.probes[idx].(remote := SocketAddr(remote, 0), local := SocketAddr(local, localPort),
                                  protocol := params.protocol, departure := env.departure);
      table.Update(idx, p);
      if params.protocol == Icmp || params.protocol == Udp {
        var sent, buf := BuildDatagram(p, params, env.isRaw, icmpId, pid);
        if buf.None? {
          return Err(EINVAL), wire;
        }
        table.Update(idx, sent);
        wire := buf.value[..];
        if env.sendError.Some? {
          return Err(env.sendError.value), wire;
        }
        r := Ok(());
      } else if params.protocol == Sctp && !sctp {
        r := Err(EINVAL);
      } else {
        ghost var tried;
        r, tried := UnixBackend.StartStream(table, idx, params, env.opens);
      }
    }

    /** `send_probe`: refused, launched, or failed; a failure puts the table back as it was. */
    method SendProbe(l: Line, now: int, env: SendEnv) returns (out: seq<Response>, ghost wire: seq<byte>)
      requires table.Valid() && Plausible(env)
      modifies table
      ensures table.Valid()
      ensures SendReply(l, |old(table.probes)|, now, env).Some? ==>
                out == [SendReply(l, |old(table.probes)|, now, env).value] && table.probes == old(table.probes)
      ensures SendReply(l, |old(table.probes)|, now, env).None? ==>
                && out == [] && DecodeArgs(l.args).Ok? && |table.probes| == |old(table.probes)| + 1
                && var p, params := table.probes[|old(table.probes)|], DecodeArgs(l.args).value;
                   && table.probes == old(table.probes) + [p]
                   && p.token == l.token && p.timeoutAt == now + Max(params.timeout, 0) * SECOND
                   && Carries(LaunchRecord(p, params, wire)) && Addressed(p, params, env)
    {
      hide Carries, Addressed, SendResult, DecodeArgs;
      wire := [];
      var params := DecodeSendProbe(l);
      if params.Err? {
        return [Response(l.token, ResponseKind.InvalidArgument(None))], wire;
      }
      if !IpVersionSupported(params.value.ipVersion) {
        return [Response(l.token, ResponseKind.InvalidArgument(Some(IpVersionNotSupported)))], wire;
      }
      if !ProtocolSupported(params.value.protocol) {
        return [Response(l.token, ResponseKind.InvalidArgument(Some(ProtocolNotSupported)))], wire;
      }
      var idx := table.Alloc(l.token, now, params.value.timeout);
      if idx.None? {
        return [Response(l.token, Bare(ProbesExhausted))], wire;
      }
      var p := table.probes[idx.value];
      table.Update(idx.value, p.(protocol := params.value.protocol));
      var sent;
      sent, wire := Launch(idx.value, params.value, env);
      assert table.probes[..idx.value] == old(table.probes);
      match sent {
        case Ok(_) =>
          out := [];
        case Err(e) =>
          NeedsAnAddress(params.value, env);
          var q := table.Remove(idx.value);
          assert table.probes == old(table.probes);
          if e == ECONNREFUSED && (params.value.protocol == Tcp || params.value.protocol == Sctp) {
            out := [ProbeReply(q, ProbeResult.Reply, q.remote.ip, now, [])];
          } else {
            out := [Response(l.token, ErrorKind(e))];
          }
      }
    }

    /** A missing address is an invalid argument, never a refused connection. */
    lemma NeedsAnAddress(params: CProbeParams, env: SendEnv)
      ensures params.remoteAddress.None? ==> SendResult(params, env) == Err(EINVAL)
    {
    }

    /** `dispatch_line`: the reply the line calls for, or one more live probe that owes it. */
    method DispatchLine(line: string, now: int, env: SendEnv) returns (out: seq<Response>, ghost r: LineResult)
      requires table.Valid() && Plausible(env)
      modifies table
      ensures table.Valid()
      ensures LineOk(line, |old(table.probes)|, now, env, r)
      ensures r.Answered? ==> out == [r.reply] && table.probes == old(table.probes)
      ensures r.Launching? ==> out == [] && table.probes == old(table.probes) + [r.launch.probe]
      ensures multiset(ResponseTokens(out)) + multiset(Tokens(table.probes))
              == multiset(Tokens(old(table.probes))) + multiset{LineToken(line)}
    {
      hide DecodeArgs, SendReply, Carries, Addressed, SupportString, Tokens, ResponseTokens;
      r := Answered(PARSE_ERROR);
      var tokenized := Tokenize(line);
      if tokenized.Err? {
        out := [PARSE_ERROR];
      } else {
        var l := tokenized.value;
        if l.name == "check-support" {
          var feature := First(l.args, "feature");
          out := [Response(l.token,
                           match feature
                           case None => ResponseKind.InvalidArgument(None)
                           case Some(f) => FeatureSupport(SupportString(f)))];
        } else if l.name == "send-probe" {
          ghost var wire;
          out, wire := SendProbe(l, now, env);
          if out == [] {
            r := Launching(LaunchRecord(table.probes[|old(table.probes)|], DecodeArgs(l.args).value, wire));
          }
        } else {
          out := [Response(l.token, Bare(UnknownName))];
        }
      }
      r := if out == [] then r else Answered(out[0]);
      ResultToken(line, |old(table.probes)|, now, env, r);
      ResultAddsUp(old(table.probes), out, table.probes, r);
    }

    lemma ResultAddsUp(was: seq<LiveProbe>, out: seq<Response>, probes: seq<LiveProbe>, r: LineResult)
      requires r.Answered? ==> out == [r.reply] && probes == was
      requires r.Launching? ==> out == [] && probes == was + [r.launch.probe]
      ensures multiset(ResponseTokens(out)) + multiset(Tokens(probes))
              == multiset(Tokens(was)) + multiset{ResultTokenOf(r)}
    {
      match r {
        case Answered(reply) => assert ResponseTokens(out) == [reply.token];
        case Launching(l) => TokensPush(was, l.probe);
      }
    }
  }
}
