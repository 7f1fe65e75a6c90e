// The strict client parser and the helper's C decoder, on the same line.
module DecodersAgree {
  import opened Common
  import opened Decimal
  import opened Tokenizer
  import opened Requests
  import opened RequestRoundTrip
  import opened Cdecode

  function Limit(k: NumKey): int {
    match k
    case Tos => 0x100
    case Ttl => 0x100
    case MarkKey => 0x1_0000_0000
    case Timeout => 0x1_0000_0000
    case _ => 0x1_0000
  }

  lemma KeyNamesAreDistinct(k: NumKey)
    ensures NumKeyOf(KeyName(k)) == Some(k)
  {
  }

  lemma NumKeyOfName(name: string)
    ensures NumKeyOf(name).Some? ==> KeyName(NumKeyOf(name).value) == name
  {
  }

  /** A number's own name is none of the other names. */
  lemma KeyNameIsNumeric(k: NumKey)
    ensures KeyName(k) !in {"ip-4", "ip-6", "local-ip-4", "local-ip-6", "local-device", "protocol"}
  {
  }

  // ----- Which arguments the decoder takes -----

  /** Whether an argument is accepted does not depend on what came before it. */
  predicate Accepts(kv: Pair) {
    Assign(DEFAULTS, kv).Ok?
  }

  lemma AcceptsAnywhere(p: CProbeParams, kv: Pair)
    ensures Assign(p, kv).Ok? == Accepts(kv)
  {
  }

  lemma {:induction false} DecodesWhenAllAccepted(args: seq<Pair>)
    ensures DecodeArgs(args).Ok? <==> forall i :: 0 <= i < |args| ==> Accepts(args[i])
  {
    if args != [] {
      var n := |args| - 1;
      DecodesWhenAllAccepted(args[..n]);
      if DecodeArgs(args[..n]).Ok? {
        AcceptsAnywhere(DecodeArgs(args[..n]).value, args[n]);
      } else {
        var i :| 0 <= i < n && !Accepts(args[..n][i]);
        assert !Accepts(args[i]);
      }
    }
  }

  // ----- What one argument changes -----

  lemma NumEffect(p: CProbeParams, kv: Pair, k: NumKey)
    requires Assign(p, kv).Ok?
    ensures kv.0 != KeyName(k) ==> GetNum(Assign(p, kv).value, k) == GetNum(p, k)
    ensures kv.0 == KeyName(k) ==> ReadC(k, kv.1) == Some(GetNum(Assign(p, kv).value, k))
  {
    KeyNamesAreDistinct(k);
    NumKeyOfName(kv.0);
    if kv.0 == KeyName(k) {
      KeyNameIsNumeric(k);
    }
  }

  lemma TextEffect(p: CProbeParams, kv: Pair)
    requires Assign(p, kv).Ok?
    ensures var q := Assign(p, kv).value;
            && q.ipVersion == (if kv.0 == "ip-4" then 4 else if kv.0 == "ip-6" then 6 else p.ipVersion)
            && q.remoteAddress == (if kv.0 in {"ip-4", "ip-6"} then Some(kv.1) else p.remoteAddress)
            && q.localAddress == (if kv.0 in {"local-ip-4", "local-ip-6"} then Some(kv.1) else p.localAddress)
            && q.localDevice == (if kv.0 == "local-device" then Some(kv.1) else p.localDevice)
            && (kv.0 != "protocol" ==> q.protocol == p.protocol)
            && (kv.0 == "protocol" ==> ParseProtocol(kv.1) == Some(q.protocol))
  {
  }

  // ----- Following every prefix of the line -----

  function OrDefault(k: NumKey, n: Option<int>): int {
    match n
    case None => GetNum(DEFAULTS, k)
    case Some(v) => if k == MarkKey then WrapU32(v) else WrapI32(v)
  }

  lemma WordHasNoBlank(s: string)
    requires IsWord(s)
    ensures SkipSpace(s) == s
  {
  }

  /** On a word that is a 64-bit literal, `strtol` and `str::parse` read the same number. */
  lemma ReadsSameNumber(k: NumKey, s: string)
    requires IsWord(s) && ParseI64(s).Some?
    ensures ReadC(k, s) == Some(OrDefault(k, ParseI64(s)))
    ensures k != MarkKey ==> ReadC(k, s).value % 256 == ParseI64(s).value % 256
  {
    WordHasNoBlank(s);
    assert StrtolValue(s) == ParseI64(s);
    hide IsLiteral, SplitSign, LiteralValue;
    LowByte(ParseI64(s).value);
  }

  lemma LowByte(n: int)
    ensures WrapI32(n) % 256 == n % 256
  {
  }

  lemma NumPrefix(args: seq<Pair>, kv: Pair, k: NumKey)
    requires Num(args + [kv], KeyName(k), Limit(k)).Ok?
    ensures Num(args, KeyName(k), Limit(k)).Ok?
    ensures kv.0 != KeyName(k) ==> Num(args + [kv], KeyName(k), Limit(k)) == Num(args, KeyName(k), Limit(k))
    ensures kv.0 == KeyName(k) ==>
              ParseI64(kv.1).Some? && 0 <= ParseI64(kv.1).value < Limit(k)
              && Num(args + [kv], KeyName(k), Limit(k)) == Ok(ParseI64(kv.1))
  {
    var key := KeyName(k);
    SelectPush(args, kv, {key});
    var seen := Select(args, {key});
    if kv.0 == key {
      assert (seen + [kv])[..|seen|] == seen;
      if NumValue(seen, Limit(k)).Ok? {
        NumPush(seen, kv, Limit(k));
      }
    }
  }

  lemma DefaultsFirst(k: NumKey)
    ensures DecodeArgs([]).Ok? && Num([], KeyName(k), Limit(k)).Ok?
    ensures GetNum(DecodeArgs([]).value, k) == OrDefault(k, Num([], KeyName(k), Limit(k)).value)
  {
  }

  lemma LastOfLine(args: seq<Pair>)
    requires WordArgs(args) && DecodeArgs(args).Ok? && args != []
    ensures var n := |args| - 1;
            && WordArgs(args[..n]) && IsWord(args[n].1)
            && DecodeArgs(args[..n]).Ok? && Assign(DecodeArgs(args[..n]).value, args[n]) == DecodeArgs(args)
  {
  }

  /** A field of the decoder holds the last valid number of the strict parser, or the default. */
  lemma {:induction false} NumFollows(args: seq<Pair>, k: NumKey)
    requires WordArgs(args) && DecodeArgs(args).Ok? && Num(args, KeyName(k), Limit(k)).Ok?
    ensures GetNum(DecodeArgs(args).value, k) == OrDefault(k, Num(args, KeyName(k), Limit(k)).value)
  {
    hide Num, Assign, Limit, ReadC, GetNum, KeyName, ParseI64, DecodeArgs, OrDefault, WordArgs, IsWord;
    if args == [] {
      DefaultsFirst(k);
    } else {
      var n := |args| - 1;
      var kv := args[n];
      assert args[..n] + [kv] == args;
      LastOfLine(args);
      NumPrefix(args[..n], kv, k);
      NumFollows(args[..n], k);
      NumEffect(DecodeArgs(args[..n]).value, kv, k);
      if kv.0 == KeyName(k) {
        ReadsSameNumber(k, kv.1);
      }
    }
  }

  lemma PatternPrefix(args: seq<Pair>, kv: Pair)
    requires PatternValue(Select(args + [kv], {"bit-pattern"})).Ok?
    ensures PatternValue(Select(args, {"bit-pattern"})).Ok?
    ensures kv.0 != "bit-pattern" ==>
              PatternValue(Select(args + [kv], {"bit-pattern"})) == PatternValue(Select(args, {"bit-pattern"}))
    ensures kv.0 == "bit-pattern" ==>
              ParseI64(kv.1).Some?
              && PatternValue(Select(args + [kv], {"bit-pattern"})) == Ok(Some(ParseI64(kv.1).value % 256))
  {
    SelectPush(args, kv, {"bit-pattern"});
    var seen := Select(args, {"bit-pattern"});
    if kv.0 == "bit-pattern" {
      assert (seen + [kv])[..|seen|] == seen;
      if PatternValue(seen).Ok? {
        PatternPush(seen, kv);
      }
    }
  }

  /** Only the low byte of the pattern is ever used, and both sides agree on it. */
  lemma {:induction false} PatternFollows(args: seq<Pair>)
    requires WordArgs(args) && DecodeArgs(args).Ok?
    requires PatternValue(Select(args, {"bit-pattern"})).Ok?
    ensures var strict := PatternValue(Select(args, {"bit-pattern"})).value;
            DecodeArgs(args).value.bitPattern % 256 == if strict.Some? then strict.value else 0
  {
    if args != [] {
      var n := |args| - 1;
      var kv := args[n];
      assert args[..n] + [kv] == args;
      PatternPrefix(args[..n], kv);
      PatternFollows(args[..n]);
      NumEffect(DecodeArgs(args[..n]).value, kv, Pattern);
      if kv.0 == "bit-pattern" {
        ReadsSameNumber(Pattern, kv.1);
      }
    }
  }

  lemma {:induction false} ProtocolFollows(args: seq<Pair>)
    requires DecodeArgs(args).Ok? && ProtocolValue(Select(args, {"protocol"})).Ok?
    ensures DecodeArgs(args).value.protocol == ProtocolValue(Select(args, {"protocol"})).value
  {
    if args != [] {
      var n := |args| - 1;
      var kv := args[n];
      assert args[..n] + [kv] == args;
      SelectPush(args[..n], kv, {"protocol"});
      var seen := Select(args[..n], {"protocol"});
      if kv.0 == "protocol" {
        assert (seen + [kv])[..|seen|] == seen;
        ProtocolPush(seen, kv);
      }
      ProtocolFollows(args[..n]);
      TextEffect(DecodeArgs(args[..n]).value, kv);
    }
  }

  function ValueOf(kv: Option<Pair>): Option<string> {
    match kv
    case None => None
    case Some(p) => Some(p.1)
  }

  /** The texts the decoder keeps are those of the last occurrences. */
  lemma {:induction false} TextsFollow(args: seq<Pair>)
    requires DecodeArgs(args).Ok?
    ensures var c := DecodeArgs(args).value;
            var target := LastOf(args, {"ip-4", "ip-6"});
            && c.remoteAddress == ValueOf(target)
            && c.ipVersion == (if target.None? then 0 else if target.value.0 == "ip-4" then 4 else 6)
            && c.localAddress == ValueOf(LastOf(args, {"local-ip-4", "local-ip-6"}))
            && c.localDevice == Last(args, "local-device")
  {
    if args != [] {
      var n := |args| - 1;
      var kv := args[n];
      assert args[..n] + [kv] == args;
      LastOfPush(args[..n], kv, {"ip-4", "ip-6"});
      LastOfPush(args[..n], kv, {"local-ip-4", "local-ip-6"});
      LastOfPush(args[..n], kv, {"local-device"});
      TextsFollow(args[..n]);
      hide LastOf, Assign;
      TextEffect(DecodeArgs(args[..n]).value, kv);
    }
  }

  // ----- Agreement on every line the strict parser accepts -----

  /** The decoder's record says what the strict parser's record says, defaults filled in. */
  ghost predicate Agrees(ip: IpText, p: ProbeParams, c: CProbeParams) {
    && c.ipVersion == (if p.target.V4? then 4 else 6)
    && c.remoteAddress.Some? && ip.Read(p.target.V4?, c.remoteAddress.value) == Some(p.target)
    && (p.localIp.Some? <==> c.localAddress.Some?)
    && (p.localIp.Some? ==> ip.Read(p.target.V4?, c.localAddress.value) == p.localIp)
    && c.localDevice == p.localDevice
    && c.protocol == p.protocol
    && c.bitPattern % 256 == (if p.bitPattern.Some? then p.bitPattern.value else 0)
    && NumbersAgree(Numbers(p.size, p.tos, p.ttl, p.timeout, p.port, p.localPort, p.mark), c)
  }

  predicate NumbersAgree(n: Numbers, c: CProbeParams) {
    && c.destPort == OrDefault(Port, n.port)
    && c.localPort == OrDefault(LocalPort, n.localPort)
    && c.typeOfService == OrDefault(Tos, n.tos)
    && c.routingMark == OrDefault(MarkKey, n.mark)
    && c.ttl == OrDefault(Ttl, n.ttl)
    && c.packetSize == OrDefault(Size, n.size)
    && c.timeout == OrDefault(Timeout, n.timeout)
  }

  lemma NumbersFollow(args: seq<Pair>)
    requires WordArgs(args) && NumbersOf(args).Ok? && DecodeArgs(args).Ok?
    ensures NumbersAgree(NumbersOf(args).value, DecodeArgs(args).value)
  {
    hide Num, DecodeArgs, OrDefault;
    NumFollows(args, Port);
    NumFollows(args, LocalPort);
    NumFollows(args, Tos);
    NumFollows(args, MarkKey);
    NumFollows(args, Ttl);
    NumFollows(args, Size);
    NumFollows(args, Timeout);
  }

  predicate HighLocalPorts(args: seq<Pair>) {
    forall i :: 0 <= i < |args| && args[i].0 == "local-port" ==>
                  ReadC(LocalPort, args[i].1).Some? && ReadC(LocalPort, args[i].1).value >= MIN_LOCAL_PORT
  }

  lemma {:induction false} NumbersAreValid(args: seq<Pair>, k: NumKey)
    requires Num(args, KeyName(k), Limit(k)).Ok?
    ensures forall i :: 0 <= i < |args| && args[i].0 == KeyName(k) ==> ParseI64(args[i].1).Some?
  {
    hide Num, Limit, KeyName, ParseI64;
    if args != [] {
      var n := |args| - 1;
      assert args[..n] + [args[n]] == args;
      NumPrefix(args[..n], args[n], k);
      NumbersAreValid(args[..n], k);
    }
  }

  lemma {:induction false} PatternsAreValid(args: seq<Pair>)
    requires PatternValue(Select(args, {"bit-pattern"})).Ok?
    ensures forall i :: 0 <= i < |args| && args[i].0 == "bit-pattern" ==> ParseI64(args[i].1).Some?
  {
    if args != [] {
      var n := |args| - 1;
      assert args[..n] + [args[n]] == args;
      PatternPrefix(args[..n], args[n]);
      PatternsAreValid(args[..n]);
    }
  }

  lemma {:induction false} ProtocolsAreValid(args: seq<Pair>)
    requires ProtocolValue(Select(args, {"protocol"})).Ok?
    ensures forall i :: 0 <= i < |args| && args[i].0 == "protocol" ==> ParseProtocol(args[i].1).Some?
  {
    hide Select, ProtocolValue, ParseProtocol;
    if args != [] {
      var n := |args| - 1;
      assert args[..n] + [args[n]] == args;
      SelectPush(args[..n], args[n], {"protocol"});
      var seen := Select(args[..n], {"protocol"});
      if args[n].0 == "protocol" {
        if ProtocolValue(seen).Err? {
          ProtocolErrorStays(seen, [args[n]]);
        }
        ProtocolPush(seen, args[n]);
      }
      ProtocolsAreValid(args[..n]);
    }
  }

  lemma NumberIsRead(args: seq<Pair>, k: NumKey)
    requires NumbersOf(args).Ok? && k != Pattern
    ensures Num(args, KeyName(k), Limit(k)).Ok?
  {
    hide Num;
  }

  lemma KeyIsValid(args: seq<Pair>, k: NumKey)
    requires NumbersOf(args).Ok? && PatternValue(Select(args, {"bit-pattern"})).Ok?
    ensures forall i :: 0 <= i < |args| && args[i].0 == KeyName(k) ==> ParseI64(args[i].1).Some?
  {
    hide Num, NumbersOf, PatternValue, Select, ParseI64, Limit;
    if k == Pattern {
      PatternsAreValid(args);
    } else {
      NumberIsRead(args, k);
      NumbersAreValid(args, k);
    }
  }

  lemma AcceptsValid(kv: Pair)
    requires IsWord(kv.1)
    requires kv.0 == "protocol" ==> ParseProtocol(kv.1).Some?
    requires forall k :: kv.0 == KeyName(k) ==> ParseI64(kv.1).Some?
    ensures Accepts(kv) <==>
            (kv.0 == "local-port" ==>
               ReadC(LocalPort, kv.1).Some? && ReadC(LocalPort, kv.1).value >= MIN_LOCAL_PORT)
  {
    WordHasNoBlank(kv.1);
    NumKeyOfName(kv.0);
    KeyNamesAreDistinct(LocalPort);
    KeyNameIsNumeric(LocalPort);
  }

  /** Given the strict parser accepts, the decoder rejects exactly the low local ports. */
  lemma DecodesIff(ip: IpText, args: seq<Pair>)
    requires WordArgs(args) && ParamsOf(ip, args).Ok?
    ensures DecodeArgs(args).Ok? <==> HighLocalPorts(args)
  {
    DecodesWhenAllAccepted(args);
    forall k ensures forall i :: 0 <= i < |args| && args[i].0 == KeyName(k) ==> ParseI64(args[i].1).Some? {
      KeyIsValid(args, k);
    }
    ProtocolsAreValid(args);
    forall i | 0 <= i < |args|
      ensures Accepts(args[i]) <==>
              (args[i].0 == "local-port" ==>
                 ReadC(LocalPort, args[i].1).Some? && ReadC(LocalPort, args[i].1).value >= MIN_LOCAL_PORT)
    {
      AcceptsValid(args[i]);
    }
  }

  lemma AgreesWhenBothAccept(ip: IpText, args: seq<Pair>)
    requires ip.Inverse() && WordArgs(args) && ParamsOf(ip, args).Ok? && DecodeArgs(args).Ok?
    ensures Agrees(ip, ParamsOf(ip, args).value, DecodeArgs(args).value)
  {
    TextsFollow(args);
    ProtocolFollows(args);
    PatternFollows(args);
    NumbersFollow(args);
    SelectedAreArgs(args, {"ip-4", "ip-6"});
  }

  /** On every line the strict parser reads as `send-probe`, the decoder succeeds exactly when each
      local port is at least 1024, and then the two records say the same. */
  lemma DecodersAgreeOnLines(ip: IpText, line: string)
    requires ip.Inverse() && Parse(ip, line).Ok? && Parse(ip, line).value.kind.SendProbe?
    ensures Tokenize(line).Ok?
    ensures var args := Tokenize(line).value.args;
            && (DecodeArgs(args).Ok? <==> HighLocalPorts(args))
            && (DecodeArgs(args).Ok? ==> Agrees(ip, Parse(ip, line).value.kind.params, DecodeArgs(args).value))
  {
    TokenizeGivesWords(line);
    var args := Tokenize(line).value.args;
    DecodesIff(ip, args);
    if DecodeArgs(args).Ok? {
      AgreesWhenBothAccept(ip, args);
    }
  }

  // ----- Over the wire -----

  /** What the helper should hold for a client's parameters. */
  function Expected(ip: IpText, p: ProbeParams): CProbeParams {
    CProbeParams(if p.target.V4? then 4 else 6, Some(ip.show(p.target)),
                 if p.localIp.Some? then Some(ip.show(p.localIp.value)) else None,
                 p.localDevice, p.protocol,
                 if p.port.Some? then p.port.value else 0,
                 if p.localPort.Some? then p.localPort.value else 0,
                 if p.tos.Some? then p.tos.value else 0,
                 if p.mark.Some? then p.mark.value else 0,
                 if p.ttl.Some? then p.ttl.value else 255,
                 if p.size.Some? then p.size.value else 64,
                 if p.bitPattern.Some? then p.bitPattern.value else 0,
                 if p.timeout.Some? then WrapI32(p.timeout.value) else 10)
  }

  lemma HighLocalPortsOfArgs(ip: IpText, p: ProbeParams)
    requires ip.Inverse() && WellFormed(p)
    ensures HighLocalPorts(ParamArgs(ip, p)) <==> (p.localPort.Some? ==> p.localPort.value >= MIN_LOCAL_PORT)
  {
    var args := ParamArgs(ip, p);
    SelectLocalPort(ip, p);
    SelectedAreArgs(args, {"local-port"});
    SelectsAll(args, "local-port");
    if p.localPort.Some? {
      StrtolReadsPrinted(p.localPort.value);
      assert Select(args, {"local-port"})[0] == ("local-port", PrintInt(p.localPort.value));
    }
  }

  lemma {:induction false} SelectsAll(args: seq<Pair>, key: string)
    ensures forall i :: 0 <= i < |args| && args[i].0 == key ==> args[i] in Select(args, {key})
  {
    if args != [] {
      SelectsAll(args[1..], key);
    }
  }

  lemma PatternOfWire(ip: IpText, p: ProbeParams)
    requires ip.Inverse() && WellFormed(p) && DecodeArgs(ParamArgs(ip, p)).Ok?
    ensures DecodeArgs(ParamArgs(ip, p)).value.bitPattern == if p.bitPattern.Some? then p.bitPattern.value else 0
  {
    hide DecodeArgs, ParamArgs, Num;
    SelectPattern(ip, p);
    var args := ParamArgs(ip, p);
    ParamArgsAreWords(ip, p);
    NumOfField(args, "bit-pattern", p.bitPattern, 0x1_0000);
    NumFollows(args, Pattern);
  }

  lemma TextsOfWire(ip: IpText, p: ProbeParams)
    requires ip.Inverse() && WellFormed(p) && DecodeArgs(ParamArgs(ip, p)).Ok?
    ensures var c, e := DecodeArgs(ParamArgs(ip, p)).value, Expected(ip, p);
            && c.ipVersion == e.ipVersion && c.remoteAddress == e.remoteAddress
            && c.localAddress == e.localAddress && c.localDevice == e.localDevice
  {
    TextsFollow(ParamArgs(ip, p));
    SelectTarget(ip, p);
    SelectLocal(ip, p);
    SelectDevice(ip, p);
  }

  lemma ProtocolOfWire(ip: IpText, p: ProbeParams)
    requires DecodeArgs(ParamArgs(ip, p)).Ok?
    ensures DecodeArgs(ParamArgs(ip, p)).value.protocol == p.protocol
  {
    ProtocolOfArgs(ip, p);
    ProtocolFollows(ParamArgs(ip, p));
  }

  lemma SmallIsUnwrapped(k: NumKey, n: Option<int>)
    requires n.Some? ==> 0 <= n.value < 0x1_0000
    ensures OrDefault(k, n) == if n.Some? then n.value else GetNum(DEFAULTS, k)
  {
  }

  lemma NumbersOfWire(ip: IpText, p: ProbeParams)
    requires ip.Inverse() && WellFormed(p) && DecodeArgs(ParamArgs(ip, p)).Ok?
    ensures var c, e := DecodeArgs(ParamArgs(ip, p)).value, Expected(ip, p);
            && c.destPort == e.destPort && c.localPort == e.localPort && c.typeOfService == e.typeOfService
            && c.routingMark == e.routingMark && c.ttl == e.ttl && c.packetSize == e.packetSize
            && c.timeout == e.timeout
  {
    hide DecodeArgs, ParamArgs, NumbersOf, OrDefault;
    ParamArgsAreWords(ip, p);
    NumbersOfArgs(ip, p);
    NumbersFollow(ParamArgs(ip, p));
    SmallIsUnwrapped(Port, p.port);
    SmallIsUnwrapped(LocalPort, p.localPort);
    SmallIsUnwrapped(Tos, p.tos);
    SmallIsUnwrapped(Ttl, p.ttl);
    SmallIsUnwrapped(Size, p.size);
    WideNumbers(p);
  }

  lemma WideNumbers(p: ProbeParams)
    ensures OrDefault(MarkKey, p.mark) == if p.mark.Some? then p.mark.value else 0
    ensures OrDefault(Timeout, p.timeout) == if p.timeout.Some? then WrapI32(p.timeout.value) else 10
  {
  }

  lemma DecodedIsExpected(ip: IpText, p: ProbeParams)
    requires ip.Inverse() && WellFormed(p) && DecodeArgs(ParamArgs(ip, p)).Ok?
    ensures DecodeArgs(ParamArgs(ip, p)).value == Expected(ip, p)
  {
    hide DecodeArgs, ParamArgs;
    NumbersOfWire(ip, p);
    TextsOfWire(ip, p);
    ProtocolOfWire(ip, p);
    PatternOfWire(ip, p);
  }

  /** The helper reads from the client's line exactly the client's values, defaults for absent
      fields, and refuses exactly a local port below 1024; a timeout above 2^31 - 1 wraps. */
  lemma DecodeOfEncode(ip: IpText, token: i32, p: ProbeParams)
    requires ip.Inverse() && WellFormed(p)
    ensures var line := Tokenize(EncodeText(ip, Request(token, RequestKind.SendProbe(p))));
            && line.Ok? && line.value.token == token && line.value.name == "send-probe"
            && DecodeArgs(line.value.args)
               == if p.localPort.Some? && p.localPort.value < MIN_LOCAL_PORT then Err(InvalidArgument)
                  else Ok(Expected(ip, p))
  {
    hide DecodeArgs, ParamArgs, Tokenize, EncodeText;
    RequestTokenizes(ip, Request(token, RequestKind.SendProbe(p)));
    DecodeOfArgs(ip, p);
  }

  lemma DecodeOfArgs(ip: IpText, p: ProbeParams)
    requires ip.Inverse() && WellFormed(p)
    ensures DecodeArgs(ParamArgs(ip, p))
            == if p.localPort.Some? && p.localPort.value < MIN_LOCAL_PORT then Err(InvalidArgument)
               else Ok(Expected(ip, p))
  {
    hide DecodeArgs, ParamArgs, ParamsOf;
    ParamsOfArgs(ip, p);
    ParamArgsAreWords(ip, p);
    DecodesIff(ip, ParamArgs(ip, p));
    HighLocalPortsOfArgs(ip, p);
    if DecodeArgs(ParamArgs(ip, p)).Ok? {
      DecodedIsExpected(ip, p);
    } else {
      assert DecodeArgs(ParamArgs(ip, p)).error.InvalidArgument?;
    }
  }
}
