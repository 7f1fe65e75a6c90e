// Replies of the line protocol (response.rs): the helper's encoder and the client's parser.
module Responses {
  import opened Common
  import opened Decimal
  import opened Tokenizer
  import opened Requests
  import opened Mpls

  datatype ProbeResult = Reply | TtlExpired | NoRouteHost

  datatype InvalidReason = IpVersionNotSupported | ProtocolNotSupported

  /** `Bare` stands for the replies that are a name and nothing else. */
  datatype BareReply =
    | NoReply
    | UnknownName
    | ProbesExhausted
    | PermissionDenied
    | AddressInUse
    | AddressNotAvailable
    | NetworkDown
    | HostDown
    | NoRouteNetwork
    | NoRoute
    | WaitTcpResponseTimeout
    | CommandParseError
    | CommandBufferOverflow

  datatype ResponseKind =
    | Probe(result: ProbeResult, addr: IpAddr, rtt: u32, mpls: seq<MplsLabel>)
    | FeatureSupport(support: string)
    | InvalidArgument(reason: Option<InvalidReason>)
    | UnexpectedError(errno: Option<i64>)
    | Bare(reply: BareReply)

  datatype Response = Response(token: i32, kind: ResponseKind)

  function ResultText(r: ProbeResult): string {
    match r
    case Reply => "reply"
    case TtlExpired => "ttl-expired"
    case NoRouteHost => "no-route-host"
  }

  function ReasonText(r: InvalidReason): string {
    match r
    case IpVersionNotSupported => "ip-version-not-supported"
    case ProtocolNotSupported => "protocol-not-supported"
  }

  function ParseReason(s: string): Option<InvalidReason> {
    if s == "ip-version-not-supported" then Some(IpVersionNotSupported)
    else if s == "protocol-not-supported" then Some(ProtocolNotSupported)
    else None
  }

  function BareText(b: BareReply): string {
    match b
    case NoReply => "no-reply"
    case UnknownName => "unknown-command"
    case ProbesExhausted => "probes-exhausted"
    case PermissionDenied => "permission-denied"
    case AddressInUse => "address-in-use"
    case AddressNotAvailable => "address-not-available"
    case NetworkDown => "network-down"
    case HostDown => "host-down"
    case NoRouteNetwork => "no-route-network"
    case NoRoute => "no-route-host"
    case WaitTcpResponseTimeout => "wait-tcp-respone-timeout"
    case CommandParseError => "command-parse-error"
    case CommandBufferOverflow => "command-buffer-overflow"
  }

  function ParseBare(s: string): Option<BareReply> {
    if s == "no-reply" then Some(NoReply)
    else if s == "unknown-command" then Some(UnknownName)
    else if s == "probes-exhausted" then Some(ProbesExhausted)
    else if s == "permission-denied" then Some(PermissionDenied)
    else if s == "address-in-use" then Some(AddressInUse)
    else if s == "address-not-available" then Some(AddressNotAvailable)
    else if s == "network-down" then Some(NetworkDown)
    else if s == "host-down" then Some(HostDown)
    else if s == "no-route-network" then Some(NoRouteNetwork)
    else if s == "no-route-host" then Some(NoRoute)
    else if s == "wait-tcp-respone-timeout" then Some(WaitTcpResponseTimeout)
    else if s == "command-parse-error" then Some(CommandParseError)
    else if s == "command-buffer-overflow" then Some(CommandBufferOverflow)
    else None
  }

  /** Replies the helper may write: at most eight labels, and a one-word feature value. */
  predicate Sendable(k: ResponseKind) {
    match k
    case Probe(_, addr, _, mpls) => WellFormedIp(addr) && |mpls| <= MAX_LABELS
    case FeatureSupport(v) => IsWord(v)
    case _ => true
  }

  // ----- Encoding -----

  function ResponseName(k: ResponseKind): string {
    match k
    case Probe(result, _, _, _) => ResultText(result)
    case FeatureSupport(_) => "feature-support"
    case InvalidArgument(_) => "invalid-argument"
    case UnexpectedError(_) => "unexpected-error"
    case Bare(b) => BareText(b)
  }

  function ProbeFields(ip: IpText, addr: IpAddr, rtt: u32, mpls: seq<MplsLabel>): (r: seq<Field>)
    ensures |r| == 3
  {
    [(ip.Key(addr), Some(ip.show(addr))),
     ("round-trip-time", Some(PrintInt(rtt))),
     ("mpls", if mpls == [] then None else Some(FormatText(mpls)))]
  }

  function ResponseFields(ip: IpText, k: ResponseKind): seq<Field> {
    match k
    case Probe(_, addr, rtt, mpls) => ProbeFields(ip, addr, rtt, mpls)
    case FeatureSupport(v) => [("support", Some(v))]
    case InvalidArgument(Some(r)) => [("reason", Some(ReasonText(r)))]
    case UnexpectedError(Some(n)) => [("errno", Some(PrintInt(n)))]
    case _ => []
  }

  function ResponseText(ip: IpText, r: Response): string {
    LineText(r.token, ResponseName(r.kind), FieldArgs(ResponseFields(ip, r.kind)))
  }

  method WriteProbe(ip: IpText, s: string, ghost head: seq<string>, k: ResponseKind) returns (r: string)
    requires k.Probe? && head != [] && s == Unwords(head + Flatten(FieldArgs(ResponseFields(ip, k)[..0])))
    ensures r == Unwords(head + Flatten(FieldArgs(ResponseFields(ip, k))))
  {
    hide PrintInt, FormatText, Unwords, Flatten, FieldArgs;
    ghost var f := ResponseFields(ip, k);
    r := WriteField(s, head, f, 0, ip.Key(k.addr), Some(ip.show(k.addr)));
    r := WriteField(r, head, f, 1, "round-trip-time", Some(PrintInt(k.rtt)));
    var list := FormatMplsList(k.mpls, "");
    assert "" + FormatText(k.mpls) == FormatText(k.mpls);
    r := WriteField(r, head, f, 2, "mpls", if k.mpls == [] then None else Some(list));
    assert f[..3] == f;
  }

  method WriteOne(s: string, ghost head: seq<string>, key: string, value: string) returns (r: string)
    requires head != [] && s == Unwords(head)
    ensures r == Unwords(head + Flatten(FieldArgs([(key, Some(value))])))
  {
    ghost var f: seq<Field> := [(key, Some(value))];
    assert head + Flatten(FieldArgs(f[..0])) == head && f[..1] == f;
    r := WriteField(s, head, f, 0, key, Some(value));
  }

  /** `Response::encode`. */
  method EncodeResponse(ip: IpText, r: Response) returns (s: string)
    ensures s == ResponseText(ip, r)
  {
    hide PrintInt, FormatText;
    ghost var head := [PrintInt(r.token), ResponseName(r.kind)];
    s := PrintInt(r.token) + " " + ResponseName(r.kind);
    assert head[1..] == [ResponseName(r.kind)];
    assert head + Flatten([]) == head && Unwords(head) == s;
    match r.kind {
      case Probe(_, _, _, _) =>
        s := WriteProbe(ip, s, head, r.kind);
      case FeatureSupport(v) =>
        s := WriteOne(s, head, "support", v);
      case InvalidArgument(Some(reason)) =>
        s := WriteOne(s, head, "reason", ReasonText(reason));
      case UnexpectedError(Some(n)) =>
        s := WriteOne(s, head, "errno", PrintInt(n));
      case _ =>
    }
    s := s + "\n";
  }

  // ----- Parsing -----

  function ReadLabels(args: seq<Pair>): seq<MplsLabel> {
    match First(args, "mpls")
    case None => []
    case Some(m) =>
      match ParseText(m)
      case Ok(labels) => labels
      case Err(_) => []
  }

  function ReadAddress(ip: IpText, args: seq<Pair>): Result<IpAddr, ParseError> {
    match First(args, "ip-4")
    case Some(v) => (match ip.read4(v) case Some(a) => Ok(a) case None => Err(Bad("ip-4", v)))
    case None =>
      match First(args, "ip-6")
      case Some(v) => (match ip.read6(v) case Some(a) => Ok(a) case None => Err(Bad("ip-6", v)))
      case None => Err(MissingArgument("ip-4"))
  }

  function ReadRtt(args: seq<Pair>): Result<u32, ParseError> {
    match First(args, "round-trip-time")
    case None => Err(MissingArgument("round-trip-time"))
    case Some(v) => (match ParseU32(v) case Some(n) => ReadsU32(v); Ok(n) case None => Err(Bad("round-trip-time", v)))
  }

  lemma ReadsU32(v: string)
    requires ParseU32(v).Some?
    ensures 0 <= ParseU32(v).value < 0x1_0000_0000
  {
  }

  function ParseProbe(ip: IpText, args: seq<Pair>, result: ProbeResult): Result<ResponseKind, ParseError> {
    var addr :- ReadAddress(ip, args);
    var rtt :- ReadRtt(args);
    Ok(Probe(result, addr, rtt, ReadLabels(args)))
  }

  function HasAddress(args: seq<Pair>): bool {
    First(args, "ip-4").Some? || First(args, "ip-6").Some?
  }

  function ParseKind(ip: IpText, name: string, args: seq<Pair>): Result<ResponseKind, ParseError> {
    if name == "reply" then ParseProbe(ip, args, Reply)
    else if name == "ttl-expired" then ParseProbe(ip, args, TtlExpired)
    else if name == "no-route-host" && HasAddress(args) then ParseProbe(ip, args, NoRouteHost)
    else if name == "feature-support" then
      (match First(args, "support") case Some(v) => Ok(FeatureSupport(v)) case None => Err(MissingArgument("support")))
    else if name == "invalid-argument" then
      Ok(InvalidArgument(match First(args, "reason") case Some(v) => ParseReason(v) case None => None))
    else if name == "unexpected-error" then
      Ok(UnexpectedError(match First(args, "errno") case Some(v) => ParseI64(v) case None => None))
    else
      match ParseBare(name)
      case Some(b) => Ok(Bare(b))
      case None => Err(UnknownCommand(name))
  }

  /** `Response::parse`. */
  function ParseResponse(ip: IpText, line: string): Result<Response, ParseError> {
    var l :- Tokenize(line);
    var kind :- ParseKind(ip, l.name, l.args);
    Ok(Response(l.token, kind))
  }

  /** Of arguments with the same name the first is read: repeating a name changes nothing. */
  lemma RepetitionIsIgnored(ip: IpText, name: string, args: seq<Pair>, again: Pair)
    requires exists i :: 0 <= i < |args| && args[i].0 == again.0
    ensures ParseKind(ip, name, args + [again]) == ParseKind(ip, name, args)
  {
    hide First, ParseKind;
    forall key ensures First(args + [again], key) == First(args, key) {
      FirstStays(args, again, key);
    }
    SameKind(ip, name, args + [again], args);
  }

  lemma SameKind(ip: IpText, name: string, a: seq<Pair>, b: seq<Pair>)
    requires forall key :: First(a, key) == First(b, key)
    ensures ParseKind(ip, name, a) == ParseKind(ip, name, b)
  {
    hide First, ParseBare, ParseProbe, ParseI64, ParseReason;
    SameProbe(ip, a, b);
  }

  lemma SameProbe(ip: IpText, a: seq<Pair>, b: seq<Pair>)
    requires forall key :: First(a, key) == First(b, key)
    ensures forall result :: ParseProbe(ip, a, result) == ParseProbe(ip, b, result)
  {
    hide First, ParseText, ParseU32;
    assert ReadAddress(ip, a) == ReadAddress(ip, b) && ReadRtt(a) == ReadRtt(b) && ReadLabels(a) == ReadLabels(b);
  }

  lemma FirstStays(args: seq<Pair>, again: Pair, key: string)
    requires exists i :: 0 <= i < |args| && args[i].0 == again.0
    ensures First(args + [again], key) == First(args, key)
  {
    SelectPush(args, again, {key});
    if again.0 == key {
      SelectIsSome(args, key);
    }
  }

  lemma {:induction false} SelectIsSome(args: seq<Pair>, key: string)
    requires exists i :: 0 <= i < |args| && args[i].0 == key
    ensures Select(args, {key}) != []
  {
    if args[0].0 != key {
      var i :| 0 <= i < |args| && args[i].0 == key;
      assert args[1..][i - 1].0 == key;
      SelectIsSome(args[1..], key);
    }
  }

  /** A name that no reply has is an error that quotes it; `no-route-host` is a probe result if an
      address comes with it, and a failure to send if none does. */
  lemma NamesAreKnown(ip: IpText, name: string, args: seq<Pair>)
    ensures ParseKind(ip, name, args) == Err(UnknownCommand(name))
            <==> name !in {"reply", "ttl-expired", "no-route-host", "feature-support", "invalid-argument",
                           "unexpected-error", "no-reply", "unknown-command", "probes-exhausted", "permission-denied",
                           "address-in-use", "address-not-available", "network-down", "host-down", "no-route-network",
                           "wait-tcp-respone-timeout", "command-parse-error", "command-buffer-overflow"}
    ensures name == "no-route-host" ==>
              (ParseKind(ip, name, args) == Ok(Bare(NoRoute)) <==> First(args, "ip-4").None? && First(args, "ip-6").None?)
  {
    hide First, ParseText, ParseU32, ParseI64, ParseReason;
  }

  /** Which answers are read, and how: the address of the first `ip-4`, or else of the first `ip-6`, and
      a 32-bit time are needed; labels that cannot be read count as none. */
  lemma AnswerIsReadIff(ip: IpText, result: ProbeResult, args: seq<Pair>)
    requires result == NoRouteHost ==> First(args, "ip-4").Some? || First(args, "ip-6").Some?
    ensures var v4, v6 := First(args, "ip-4"), First(args, "ip-6");
            var time, list := First(args, "round-trip-time"), First(args, "mpls");
            var addr := if v4.Some? then ip.read4(v4.value) else if v6.Some? then ip.read6(v6.value) else None;
            var read := ParseKind(ip, ResultText(result), args);
            && (read.Ok? <==> addr.Some? && time.Some? && ParseU32(time.value).Some?)
            && (read.Ok? ==>
                  && read.value.Probe? && read.value.result == result && read.value.addr == addr.value
                  && Some(read.value.rtt) == ParseU32(time.value)
                  && read.value.mpls
                     == if list.Some? && ParseText(list.value).Ok? then ParseText(list.value).value else [])
  {
    AnswerNameIsRead(ip, result, args);
    hide First, ParseText, ParseU32, ParseKind, ResultText;
  }

  lemma AnswerNameIsRead(ip: IpText, result: ProbeResult, args: seq<Pair>)
    requires result == NoRouteHost ==> First(args, "ip-4").Some? || First(args, "ip-6").Some?
    ensures ParseKind(ip, ResultText(result), args) == ParseProbe(ip, args, result)
  {
    hide First, ParseProbe, ParseBare;
  }

  /** Of the other replies only a feature's answer needs its argument; a reason or an error number that
      cannot be read counts as none. */
  lemma OthersAreRead(ip: IpText, args: seq<Pair>)
    ensures var support, reason, errno := First(args, "support"), First(args, "reason"), First(args, "errno");
            && ParseKind(ip, "feature-support", args)
               == (if support.Some? then Ok(FeatureSupport(support.value)) else Err(MissingArgument("support")))
            && ParseKind(ip, "invalid-argument", args)
               == Ok(InvalidArgument(if reason == Some("ip-version-not-supported") then Some(IpVersionNotSupported)
                                     else if reason == Some("protocol-not-supported") then Some(ProtocolNotSupported)
                                     else None))
            && ParseKind(ip, "unexpected-error", args)
               == Ok(UnexpectedError(if errno.Some? then ParseI64(errno.value) else None))
  {
    hide First, ParseProbe, ParseBare, ParseI64;
  }
}
