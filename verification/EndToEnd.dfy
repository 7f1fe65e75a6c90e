// From the engine over the wire to the helper, and back: what one side says is what the other does.
module EndToEnd {
  import opened Common
  import opened Decimal
  import opened Tokenizer
  import opened Requests
  import opened RequestRoundTrip
  import opened Cdecode
  import opened DecodersAgree
  import opened Responses
  import opened ResponseRoundTrip
  import opened Mpls
  import opened ProbeTables
  import opened UnixBackend
  import opened Helpers
  import opened Histories
  import opened Stats
  import opened Hops
  import opened EngineSpec
  import Turns

  // ----- What the engine asks is what the helper does -----

  /** A run whose target, source address and device can be written into a request. */
  ghost predicate Addressable(s: State) {
    && WellFormedIp(s.target)
    && (s.local.Some? ==> WellFormedIp(s.local.value) && s.local.value.V4? == s.target.V4?)
    && (s.cfg.device.Some? ==> IsWord(s.cfg.device.value))
  }

  /** The record the helper works from: target, source and device as configured, the port numbers,
      type of service and mark as set (zero if not), the TTL of the batch hop, the batch's size and
      the low byte of its pattern, and the probe timeout as a C `int`. */
  function AskedFor(ip: IpText, s: State, size: int, pattern: int): CProbeParams
    requires s.batchAt <= 254
  {
    CProbeParams(if s.target.V4? then 4 else 6, Some(ip.show(s.target)),
                 if s.local.Some? then Some(ip.show(s.local.value)) else None,
                 s.cfg.device, s.cfg.protocol, s.cfg.remotePort, s.cfg.localPort, s.cfg.tos, s.cfg.mark,
                 s.batchAt + 1, Min(if size < 0 then -size else size, 65535), pattern % 256,
                 (s.cfg.probeTimeout + 0x8000_0000) % 0x1_0000_0000 - 0x8000_0000)
  }

  /** For every probe the engine asks for, the line its client writes is decoded by the helper under
      the same token into exactly that record; only a local port below 1024 is refused. */
  lemma HelperReadsWhatEngineAsked(ip: IpText, s: State, now: real, draws: Draws)
    requires ip.Inverse() && Shape(s) && Addressable(s) && SendBatch(s, now, draws).1 != []
    ensures var (s', out, _) := SendBatch(s, now, draws);
            && |out| == 1 && out[0].SendProbe? && out[0].token == s.nextSequence
            && var line := Tokenize(EncodeText(ip, Request(s.nextSequence, RequestKind.SendProbe(out[0].params))));
               && line.Ok? && line.value.token == s.nextSequence && line.value.name == "send-probe"
               && DecodeArgs(line.value.args)
                  == if 0 < s.cfg.localPort < 1024 then Err(Cdecode.InvalidArgument.InvalidArgument)
                     else Ok(AskedFor(ip, s, s'.packetSize, s'.bitPattern))
  {
    BatchAsks(s, now, draws);
    var (s', out, _) := SendBatch(s, now, draws);
    hide SendBatch, PingParams, DecodeArgs, AskedFor;
    AskedIsWellFormed(s, s');
    ExpectedIsAsked(ip, s, s');
    DecodeOfEncode(ip, s.nextSequence, out[0].params);
  }

  lemma BatchAsks(s: State, now: real, draws: Draws)
    requires Shape(s) && SendBatch(s, now, draws).1 != []
    ensures var (s', out, _) := SendBatch(s, now, draws);
            var asked := s.(packetSize := s'.packetSize, bitPattern := s'.bitPattern);
            out == [Command.SendProbe(s.nextSequence, PingParams(asked, s.batchAt))]
  {
    hide BatchEnd, HopAfterSend, ChooseSize, ChoosePattern, CacheSkips, Shape;
  }

  lemma AskedIsWellFormed(s: State, s': State)
    requires Addressable(s)
    ensures WellFormed(PingParams(s.(packetSize := s'.packetSize, bitPattern := s'.bitPattern), s.batchAt))
  {
  }

  lemma ExpectedIsAsked(ip: IpText, s: State, s': State)
    requires s.batchAt <= 254
    ensures var p := PingParams(s.(packetSize := s'.packetSize, bitPattern := s'.bitPattern), s.batchAt);
            && Expected(ip, p) == AskedFor(ip, s, s'.packetSize, s'.bitPattern)
            && (p.localPort.Some? && p.localPort.value < MIN_LOCAL_PORT <==> 0 < s.cfg.localPort < 1024)
  {
    TwiceWrapped(s.cfg.probeTimeout);
  }

  lemma TwiceWrapped(n: nat)
    ensures WrapI32(n % 0x1_0000_0000) == (n + 0x8000_0000) % 0x1_0000_0000 - 0x8000_0000
  {
    var q, r := n / 0x1_0000_0000, n % 0x1_0000_0000;
    assert n + 0x8000_0000 == q * 0x1_0000_0000 + (r + 0x8000_0000);
  }

  // ----- Questions about features -----

  /** What the client learns from asking the helper about a feature. */
  function Learned(h: Helper, f: Feature): string {
    match f
    case Version => h.version
    case Ip4 => if h.v4 then "ok" else "no"
    case Ip6 => if h.v6 then "ok" else "no"
    case SctpProbes => if h.sctp then "ok" else "no"
    case Mark => if h.mark then "ok" else "no"
    case SendProbes => "ok"
    case IcmpProbes => "ok"
    case UdpProbes => "ok"
    case TcpProbes => "ok"
  }

  /** Question and answer over the wire, both texts encoded and parsed by the code of either side. */
  lemma FeatureQuestionIsAnswered(h: Helper, ip: IpText, token: i32, f: Feature, live: nat, now: int, env: SendEnv)
    requires ip.Inverse() && IsWord(h.version)
    ensures var reply := h.Reply(EncodeText(ip, Request(token, CheckSupport(f))), live, now, env);
            && reply.Some?
            && ResponseText(ip, reply.value) == PrintInt(token) + " " + ("feature-support support " + Learned(h, f)) + "\n"
            && ParseResponse(ip, ResponseText(ip, reply.value)) == Ok(Response(token, FeatureSupport(Learned(h, f))))
  {
    QuestionIsRead(h, ip, token, f, live, now, env);
    LearnedIsWord(h, f);
    AnswerText(ip, token, Learned(h, f));
    hide EncodeText, Helper.Reply, Learned, ResponseText, ParseResponse, PrintInt, IsWord;
  }

  lemma AnswerText(ip: IpText, token: i32, word: string)
    requires ip.Inverse() && IsWord(word)
    ensures var r := Response(token, FeatureSupport(word));
            && ResponseText(ip, r) == PrintInt(token) + " " + ("feature-support support " + word) + "\n"
            && ParseResponse(ip, ResponseText(ip, r)) == Ok(r)
  {
    hide ResponseText, ParseResponse, PrintInt, IsWord;
    var r := Response(token, FeatureSupport(word));
    ParseOfEncodeResponse(ip, r);
    OneFieldText(ip, r, "support", word);
    Regroup(PrintInt(token), "feature-support", "support", word);
    assert "feature-support" + " " + "support" + " " == "feature-support support ";
  }

  lemma LearnedIsWord(h: Helper, f: Feature)
    requires IsWord(h.version)
    ensures IsWord(Learned(h, f))
  {
  }

  lemma SupportIsLearned(h: Helper, f: Feature)
    ensures h.SupportString(FeatureText(f)) == Learned(h, f)
  {
    FeatureTextParses(f);
    hide FeatureText, ParseFeature;
  }

  lemma QuestionIsRead(h: Helper, ip: IpText, token: i32, f: Feature, live: nat, now: int, env: SendEnv)
    requires ip.Inverse()
    ensures h.Reply(EncodeText(ip, Request(token, CheckSupport(f))), live, now, env)
            == Some(Response(token, FeatureSupport(Learned(h, f))))
  {
    hide Tokenize, EncodeText, First, Helper.SendReply, FeatureText, Helper.SupportString, Learned;
    RequestTokenizes(ip, Request(token, CheckSupport(f)));
    FirstOfOne("feature", FeatureText(f));
    SupportIsLearned(h, f);
  }

  lemma FirstOfOne(key: string, value: string)
    ensures First([(key, value)], key) == Some(value)
  {
    SelectPush([], (key, value), {key});
    assert [] + [(key, value)] == [(key, value)];
  }

  lemma OneFieldText(ip: IpText, r: Response, key: string, value: string)
    requires ResponseFields(ip, r.kind) == [(key, Some(value))]
    ensures ResponseText(ip, r) == PrintInt(r.token) + " " + ResponseName(r.kind) + " " + key + " " + value + "\n"
  {
    hide PrintInt, ResponseName;
    var f: seq<Field> := [(key, Some(value))];
    assert f[..0] == [] && FieldArgs(f) == [(key, value)];
    assert Flatten([(key, value)]) == [key, value] by {
      assert [(key, value)][1..] == [];
    }
    var ws := [PrintInt(r.token), ResponseName(r.kind)];
    TwoWords(PrintInt(r.token), ResponseName(r.kind));
    UnwordsPair(ws, key, value);
    assert ws + [key, value] == LineWords(r.token, ResponseName(r.kind), [(key, value)]);
  }

  lemma NoFieldText(ip: IpText, r: Response)
    requires ResponseFields(ip, r.kind) == []
    ensures ResponseText(ip, r) == PrintInt(r.token) + " " + ResponseName(r.kind) + "\n"
  {
    hide PrintInt, ResponseName;
    assert LineWords(r.token, ResponseName(r.kind), []) == [PrintInt(r.token), ResponseName(r.kind)];
    TwoWords(PrintInt(r.token), ResponseName(r.kind));
  }

  lemma TwoWords(a: string, b: string)
    ensures Unwords([a, b]) == a + " " + b
  {
    assert [a, b][1..] == [b];
  }

  // ----- Lines that ask for nothing, and requests that are turned down -----

  /** What the client reads for a line that is no command, an unknown command, a line that is too long
      and a request that is turned down. */
  lemma RefusalsOnTheWire(h: Helper, ip: IpText, line: string, live: nat, now: int, env: SendEnv)
    ensures Tokenize(line).Err? ==>
              && h.Reply(line, live, now, env).Some?
              && ResponseText(ip, h.Reply(line, live, now, env).value) == "0 " + "command-parse-error" + "\n"
    ensures ResponseText(ip, Turns.OVERFLOW_REPORT) == "0 " + "command-buffer-overflow" + "\n"
    ensures Tokenize(line).Ok? && Tokenize(line).value.name !in {"check-support", "send-probe"} ==>
              && h.Reply(line, live, now, env).Some?
              && ResponseText(ip, h.Reply(line, live, now, env).value)
                 == PrintInt(Tokenize(line).value.token) + " " + "unknown-command" + "\n"
    ensures Tokenize(line).Ok? && Tokenize(line).value.name == "check-support"
            && First(Tokenize(line).value.args, "feature").None? ==>
              && h.Reply(line, live, now, env).Some?
              && ResponseText(ip, h.Reply(line, live, now, env).value)
                 == PrintInt(Tokenize(line).value.token) + " " + "invalid-argument" + "\n"
  {
    RefusalReplies(h, line, live, now, env);
    hide Tokenize, ResponseText, PrintInt, First, Helper.Reply;
    ZeroText();
    RefusalText(ip, 0, CommandParseError);
    RefusalText(ip, 0, CommandBufferOverflow);
    if Tokenize(line).Ok? {
      RefusalText(ip, Tokenize(line).value.token, UnknownName);
    }
  }

  lemma RefusalText(ip: IpText, token: i32, b: BareReply)
    ensures ResponseText(ip, Response(token, Bare(b))) == PrintInt(token) + " " + BareText(b) + "\n"
    ensures ResponseText(ip, Response(token, ResponseKind.InvalidArgument(None)))
            == PrintInt(token) + " " + "invalid-argument" + "\n"
  {
    NoFieldText(ip, Response(token, Bare(b)));
    NoFieldText(ip, Response(token, ResponseKind.InvalidArgument(None)));
    hide PrintInt, ResponseText;
  }

  lemma RefusalReplies(h: Helper, line: string, live: nat, now: int, env: SendEnv)
    ensures Tokenize(line).Err? ==> h.Reply(line, live, now, env) == Some(Response(0, Bare(CommandParseError)))
    ensures Tokenize(line).Ok? && Tokenize(line).value.name !in {"check-support", "send-probe"} ==>
              h.Reply(line, live, now, env) == Some(Response(Tokenize(line).value.token, Bare(UnknownName)))
    ensures Tokenize(line).Ok? && Tokenize(line).value.name == "check-support"
            && First(Tokenize(line).value.args, "feature").None? ==>
              h.Reply(line, live, now, env)
              == Some(Response(Tokenize(line).value.token, ResponseKind.InvalidArgument(None)))
  {
    hide Tokenize, First, Helper.SendReply, Helper.SupportString;
  }

  lemma ZeroText()
    ensures PrintInt(0) == "0"
  {
  }

  /** What the client reads for a probe request that is turned down: an argument that does not decode,
      a family or protocol the helper lacks, a full table; in this order. */
  lemma TurnedDownOnTheWire(h: Helper, ip: IpText, l: Line, live: nat)
    ensures var reply := h.Refusal(l, live);
            var p := DecodeArgs(l.args);
            var word := if p.Err? then "invalid-argument"
                        else if !(p.value.ipVersion == 4 && h.v4) && !(p.value.ipVersion == 6 && h.v6)
                        then "invalid-argument" + " reason " + "ip-version-not-supported"
                        else if p.value.protocol == Sctp && !h.sctp
                        then "invalid-argument" + " reason " + "protocol-not-supported"
                        else "probes-exhausted";
            && (reply.None? <==> word == "probes-exhausted" && live < 10240)
            && (reply.Some? ==> ResponseText(ip, reply.value) == PrintInt(l.token) + " " + word + "\n")
  {
    NoFieldText(ip, Response(l.token, ResponseKind.InvalidArgument(None)));
    NoFieldText(ip, Response(l.token, Bare(ProbesExhausted)));
    ReasonOnTheWire(ip, l.token, IpVersionNotSupported);
    ReasonOnTheWire(ip, l.token, ProtocolNotSupported);
    hide DecodeArgs, ResponseText, PrintInt;
  }

  lemma ReasonOnTheWire(ip: IpText, token: i32, r: InvalidReason)
    ensures ResponseText(ip, Response(token, ResponseKind.InvalidArgument(Some(r))))
            == PrintInt(token) + " " + ("invalid-argument" + " reason " + ReasonText(r)) + "\n"
  {
    OneFieldText(ip, Response(token, ResponseKind.InvalidArgument(Some(r))), "reason", ReasonText(r));
    hide ResponseText, PrintInt, ReasonText;
    Regroup(PrintInt(token), "invalid-argument", "reason", ReasonText(r));
    assert "invalid-argument" + " " + "reason" + " " == "invalid-argument" + " reason ";
  }

  lemma Regroup(a: string, b: string, c: string, d: string)
    ensures a + " " + b + " " + c + " " + d + "\n" == a + " " + (b + " " + c + " " + d) + "\n"
  {
  }

  // ----- Failures to send -----

  /** The words of a failure on the wire. */
  function ErrnoWords(e: Errno): string {
    match e
    case EINVAL => "invalid-argument"
    case ENETDOWN => "network-down"
    case EHOSTDOWN => "host-down"
    case ENETUNREACH => "no-route-network"
    case EHOSTUNREACH => "no-route-host"
    case EPERM => "permission-denied"
    case EADDRINUSE => "address-in-use"
    case EADDRNOTAVAIL => "address-not-available"
    case ETIMEDOUT => "wait-tcp-respone-timeout"
    case ECONNREFUSED => "unexpected-error errno " + PrintInt(111)
    case OtherErrno(n) => "unexpected-error errno " + PrintInt(n)
    case NoErrno => "unexpected-error"
  }

  /** The failure a hop shows: only four of them end a probe. */
  function ErrnoShown(e: Errno): Option<HopError> {
    if e == ENETDOWN then Some(ErrNetworkDown)
    else if e == EHOSTDOWN then Some(ErrHostDown)
    else if e == ENETUNREACH then Some(ErrNoRouteNetwork)
    else if e == EHOSTUNREACH then Some(ErrNoRouteHost)
    else None
  }

  lemma ErrnoText(ip: IpText, token: i32, e: Errno)
    ensures ResponseText(ip, Response(token, ErrorKind(e))) == PrintInt(token) + " " + ErrnoWords(e) + "\n"
  {
    hide PrintInt, ResponseText;
    if e.ECONNREFUSED? {
      NumberedText(ip, token, 111);
    } else if e.OtherErrno? {
      NumberedText(ip, token, e.number);
    } else {
      NoFieldText(ip, Response(token, ErrorKind(e)));
    }
  }

  lemma NumberedText(ip: IpText, token: i32, n: i64)
    ensures ResponseText(ip, Response(token, UnexpectedError(Some(n))))
            == PrintInt(token) + " " + ("unexpected-error errno " + PrintInt(n)) + "\n"
  {
    OneFieldText(ip, Response(token, UnexpectedError(Some(n))), "errno", PrintInt(n));
    hide ResponseText, PrintInt;
    Regroup(PrintInt(token), "unexpected-error", "errno", PrintInt(n));
    assert "unexpected-error" + " " + "errno" + " " == "unexpected-error errno ";
  }

  /** A probe that could not be sent: the word on the wire, and what it does to the probe's hop when
      the client reads it. Four failures show on the hop and end the probe, all others leave the engine
      as it was. */
  lemma FailedSendReachesTheHop(ip: IpText, s: State, token: i32, e: Errno, now: real)
    requires ip.Inverse() && Shape(s) && KnownToken(token) && !s.paused && s.seqs[token].transit
    ensures var text := ResponseText(ip, Response(token, ErrorKind(e)));
            && text == PrintInt(token) + " " + ErrnoWords(e) + "\n"
            && ParseResponse(ip, text).Ok? && ParseResponse(ip, text).value.token == token
            && var (s', out) := OnAnswer(s, token, ParseResponse(ip, text).value.kind, now);
               var at := s.seqs[token].hop;
               && out == []
               && (ErrnoShown(e).None? ==> s' == s)
               && (ErrnoShown(e).Some? ==>
                     && s'.hops[at].err == ErrnoShown(e) && !s'.hops[at].outstanding && !s'.seqs[token].transit
                     && s'.hops[at].stats == s.hops[at].stats.(transit := 0) && s'.hops[at].addr == s.hops[at].addr
                     && forall h :: 0 <= h < MAX_HOST && h != at ==> s'.hops[h] == s.hops[h])
  {
    FailureTravels(ip, token, e);
    FailureHitsTheHop(s, token, e, now);
    hide ResponseText, ParseResponse, ErrnoWords, PrintInt, ErrorKind, OnAnswer, Shape;
  }

  lemma FailureTravels(ip: IpText, token: i32, e: Errno)
    requires ip.Inverse()
    ensures var r := Response(token, ErrorKind(e));
            && ResponseText(ip, r) == PrintInt(token) + " " + ErrnoWords(e) + "\n"
            && ParseResponse(ip, ResponseText(ip, r)) == Ok(r)
  {
    hide ResponseText, ParseResponse, ErrnoWords, PrintInt;
    ErrnoText(ip, token, e);
    ParseOfEncodeResponse(ip, Response(token, ErrorKind(e)));
  }

  lemma FailureHitsTheHop(s: State, token: i32, e: Errno, now: real)
    requires Shape(s) && KnownToken(token) && !s.paused && s.seqs[token].transit
    ensures var (s', out) := OnAnswer(s, token, ErrorKind(e), now);
            var at := s.seqs[token].hop;
            && out == []
            && (ErrnoShown(e).None? ==> s' == s)
            && (ErrnoShown(e).Some? ==>
                  && s'.hops[at].err == ErrnoShown(e) && !s'.hops[at].outstanding && !s'.seqs[token].transit
                  && s'.hops[at].stats == s.hops[at].stats.(transit := 0) && s'.hops[at].addr == s.hops[at].addr
                  && forall h :: 0 <= h < MAX_HOST && h != at ==> s'.hops[h] == s.hops[h])
  {
    hide AfterOutcome;
  }

  // ----- Answers to probes -----

  function WordOf(r: ProbeResult): string {
    match r
    case Reply => "reply"
    case TtlExpired => "ttl-expired"
    case NoRouteHost => "no-route-host"
  }

  /** The text of an answer: the word, the sender with the key of its family, the time, and the labels
      if there are any, four numbers each. */
  lemma AnswerOnTheWire(ip: IpText, token: i32, word: ProbeResult, from: IpAddr, rtt: u32, labels: seq<MplsLabel>)
    ensures ResponseText(ip, Response(token, ResponseKind.Probe(word, from, rtt, labels)))
            == PrintInt(token) + " " + WordOf(word) + " " + (if from.V4? then "ip-4" else "ip-6") + " " + ip.show(from)
               + " " + "round-trip-time" + " " + PrintInt(rtt)
               + (if labels == [] then "" else " " + "mpls" + " " + FormatText(labels)) + "\n"
  {
    var key := if from.V4? then "ip-4" else "ip-6";
    ResultWords(word);
    hide PrintInt, FormatText, ResultText, WordOf;
    ProbeWords(ip, from, rtt, labels);
    var ws := [PrintInt(token), ResultText(word)];
    TwoWords(PrintInt(token), ResultText(word));
    var r := Response(token, ResponseKind.Probe(word, from, rtt, labels));
    assert ResponseText(ip, r) == Unwords(ws + Flatten(FieldArgs(ProbeFields(ip, from, rtt, labels)))) + "\n";
    hide Unwords, FieldArgs, Flatten, ResponseText, ProbeFields;
    UnwordsPair(ws, key, ip.show(from));
    UnwordsPair(ws + [key, ip.show(from)], "round-trip-time", PrintInt(rtt));
    var four := ws + [key, ip.show(from)] + ["round-trip-time", PrintInt(rtt)];
    assert four == ws + [key, ip.show(from), "round-trip-time", PrintInt(rtt)];
    if labels != [] {
      UnwordsPair(four, "mpls", FormatText(labels));
      assert four + ["mpls", FormatText(labels)]
          == ws + ([key, ip.show(from), "round-trip-time", PrintInt(rtt)] + ["mpls", FormatText(labels)]);
      Suffix(Unwords(four), "mpls", FormatText(labels));
    } else {
      assert four == ws + ([key, ip.show(from), "round-trip-time", PrintInt(rtt)] + []);
      assert Unwords(four) + "" == Unwords(four);
    }
  }

  lemma Suffix(a: string, b: string, c: string)
    ensures a + " " + b + " " + c == a + (" " + b + " " + c)
  {
  }

  lemma ResultWords(r: ProbeResult)
    ensures WordOf(r) == ResultText(r)
  {
  }

  lemma ProbeWords(ip: IpText, from: IpAddr, rtt: u32, labels: seq<MplsLabel>)
    ensures Flatten(FieldArgs(ProbeFields(ip, from, rtt, labels)))
            == [if from.V4? then "ip-4" else "ip-6", ip.show(from), "round-trip-time", PrintInt(rtt)]
               + if labels == [] then [] else ["mpls", FormatText(labels)]
  {
    hide PrintInt, FormatText;
    var f := ProbeFields(ip, from, rtt, labels);
    var key := if from.V4? then "ip-4" else "ip-6";
    assert f[..2][..1] == f[..1] && f[..1][..0] == [] && f[..3] == f;
    var first, second: Pair := (key, ip.show(from)), ("round-trip-time", PrintInt(rtt));
    assert FieldArgs(f[..1]) == [first];
    assert FieldArgs(f[..2]) == [first, second];
    FlattenTwo(first, second);
    if labels != [] {
      var third: Pair := ("mpls", FormatText(labels));
      assert FieldArgs(f) == [first, second] + [third];
      FlattenAppend([first, second], [third]);
      assert [third][1..] == [];
    } else {
      assert FieldArgs(f) == [first, second];
    }
  }

  lemma FlattenTwo(a: Pair, b: Pair)
    ensures Flatten([a, b]) == [a.0, a.1, b.0, b.1]
  {
    assert [a, b][1..] == [b] && [b][1..] == [];
  }

  /** An answer under way: what the helper reports about a probe, read by the client and handled by
      the engine, shows the sender on the probe's hop (unless that is the target before its due TTL),
      with the time between departure and arrival. */
  lemma AnswerReachesTheHop(ip: IpText, s: State, p: LiveProbe, r: Response, word: ProbeResult, from: IpAddr, at: int,
                            labels: seq<MplsLabel>, now: real)
    requires ip.Inverse() && WellFormedIp(from) && |labels| <= 8 && SaysOf(r, p, word, from, at, labels)
    requires Shape(s) && KnownToken(p.token) && !s.paused && s.seqs[p.token].transit
    requires p.departure <= at < p.departure + 0x8000_0000
    ensures var m := ParseResponse(ip, ResponseText(ip, r));
            && m.Ok? && m.value.token == p.token
            && var s' := OnAnswer(s, m.value.token, m.value.kind, now).0;
               var h := s.seqs[p.token].hop;
               var before, after := s.hops[h], s'.hops[h];
               && (from != s.target || s.cfg.dueTtl <= h + 1 ==> after.addr == Some(from))
               && (after.addr != before.addr ==> after.mpls == labels)
               && after.err == (if word == NoRouteHost then Some(ErrNoRouteHost) else None)
               && after.stats.rtts.last == at - p.departure
               && after.stats.rtts.returned == before.stats.rtts.returned + 1
               && !s'.seqs[p.token].transit
  {
    ParseOfEncodeResponse(ip, r);
    ReplyHitsTheHop(s, p.token, r.kind, now);
    hide ResponseText, ParseResponse, OnAnswer, Shape;
  }

  lemma ReplyHitsTheHop(s: State, token: i32, kind: ResponseKind, now: real)
    requires Shape(s) && KnownToken(token) && !s.paused && s.seqs[token].transit && kind.Probe?
    ensures var s' := OnAnswer(s, token, kind, now).0;
            var h := s.seqs[token].hop;
            var before, after := s.hops[h], s'.hops[h];
            && (kind.addr != s.target || s.cfg.dueTtl <= h + 1 ==> after.addr == Some(kind.addr))
            && (after.addr != before.addr ==> after.mpls == kind.mpls)
            && after.err == (if kind.result == NoRouteHost then Some(ErrNoRouteHost) else None)
            && (kind.rtt < 0x8000_0000 ==> after.stats.rtts.last == kind.rtt)
            && after.stats.rtts.returned == before.stats.rtts.returned + 1
            && !s'.seqs[token].transit
  {
    hide AfterOutcome, AfterResponder, NextMean, Deviation, TruncDiv;
  }
}
