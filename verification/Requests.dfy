// Requests of the line protocol (request.rs): the client's encoder and the strict parser.
module Requests {
  import opened Common
  import opened Decimal
  import opened Tokenizer

  datatype Protocol = Icmp | Udp | Tcp | Sctp

  function ProtocolText(p: Protocol): string {
    match p
    case Icmp => "icmp"
    case Udp => "udp"
    case Tcp => "tcp"
    case Sctp => "sctp"
  }

  function ParseProtocol(s: string): Option<Protocol> {
    if s == "icmp" then Some(Icmp)
    else if s == "udp" then Some(Udp)
    else if s == "tcp" then Some(Tcp)
    else if s == "sctp" then Some(Sctp)
    else None
  }

  datatype Feature = Version | Ip4 | Ip6 | SendProbes | IcmpProbes | UdpProbes | TcpProbes | SctpProbes | Mark

  function FeatureText(f: Feature): string {
    match f
    case Version => "version"
    case Ip4 => "ip-4"
    case Ip6 => "ip-6"
    case SendProbes => "send-probe"
    case IcmpProbes => "icmp"
    case UdpProbes => "udp"
    case TcpProbes => "tcp"
    case SctpProbes => "sctp"
    case Mark => "mark"
  }

  function ParseFeature(s: string): Option<Feature> {
    if s == "version" then Some(Version)
    else if s == "ip-4" then Some(Ip4)
    else if s == "ip-6" then Some(Ip6)
    else if s == "send-probe" then Some(SendProbes)
    else if s == "icmp" then Some(IcmpProbes)
    else if s == "udp" then Some(UdpProbes)
    else if s == "tcp" then Some(TcpProbes)
    else if s == "sctp" then Some(SctpProbes)
    else if s == "mark" then Some(Mark)
    else None
  }

  /** How addresses are written and read back; the standard library's code, taken as given. */
  datatype IpText = IpText(show: IpAddr -> string, read4: string -> Option<IpAddr>, read6: string -> Option<IpAddr>) {
    function Key(a: IpAddr): string {
      if a.V4? then "ip-4" else "ip-6"
    }

    function LocalKey(a: IpAddr): string {
      if a.V4? then "local-ip-4" else "local-ip-6"
    }

    function Read(v4: bool, s: string): Option<IpAddr> {
      if v4 then read4(s) else read6(s)
    }

    /** Reading inverts writing, family by family, and an address is written as one word. */
    ghost predicate Inverse() {
      && (forall a: IpAddr :: WellFormedIp(a) ==> IsWord(show(a)) && Read(a.V4?, show(a)) == Some(a))
      && (forall s: string :: read4(s).Some? ==> read4(s).value.V4? && WellFormedIp(read4(s).value))
      && (forall s: string :: read6(s).Some? ==> read6(s).value.V6? && WellFormedIp(read6(s).value))
    }
  }

  datatype ProbeParams = ProbeParams(
    target: IpAddr,
    localIp: Option<IpAddr>,
    localDevice: Option<string>,
    protocol: Protocol,
    size: Option<u16>,
    bitPattern: Option<byte>,
    tos: Option<byte>,
    ttl: Option<byte>,
    timeout: Option<u32>,
    port: Option<u16>,
    localPort: Option<u16>,
    mark: Option<u32>)

  datatype RequestKind = CheckSupport(feature: Feature) | SendProbe(params: ProbeParams)
  datatype Request = Request(token: i32, kind: RequestKind)

  /** Requests the client may encode: one address family, and a device name that is one word. */
  predicate WellFormed(p: ProbeParams) {
    && WellFormedIp(p.target)
    && (p.localIp.Some? ==> WellFormedIp(p.localIp.value) && p.localIp.value.V4? == p.target.V4?)
    && (p.localDevice.Some? ==> IsWord(p.localDevice.value))
  }

  // ----- Encoding -----

  /** An argument that is written when it has a value. */
  type Field = (string, Option<string>)

  function NumText(value: Option<int>): Option<string> {
    match value
    case Some(v) => Some(PrintInt(v))
    case None => None
  }

  function FieldArg(f: Field): seq<Pair> {
    match f.1
    case Some(v) => [(f.0, v)]
    case None => []
  }

  function FieldArgs(fields: seq<Field>): seq<Pair> {
    if fields == [] then [] else FieldArgs(fields[..|fields| - 1]) + FieldArg(fields[|fields| - 1])
  }

  function LocalField(ip: IpText, local: Option<IpAddr>): Field {
    match local
    case Some(l) => (ip.LocalKey(l), Some(ip.show(l)))
    case None => ("local-ip-4", None)
  }

  /** The arguments of `send-probe`, in the order they are written. */
  function Fields(ip: IpText, p: ProbeParams): (r: seq<Field>)
    ensures |r| == 12
  {
    [(ip.Key(p.target), Some(ip.show(p.target))),
     LocalField(ip, p.localIp),
     ("protocol", Some(ProtocolText(p.protocol))),
     ("size", NumText(p.size)),
     ("bit-pattern", NumText(p.bitPattern)),
     ("tos", NumText(p.tos)),
     ("ttl", NumText(p.ttl)),
     ("timeout", NumText(p.timeout)),
     ("port", NumText(p.port)),
     ("local-port", NumText(p.localPort)),
     ("mark", NumText(p.mark)),
     ("local-device", p.localDevice)]
  }

  function ParamArgs(ip: IpText, p: ProbeParams): seq<Pair> {
    FieldArgs(Fields(ip, p))
  }

  function RequestName(k: RequestKind): string {
    if k.CheckSupport? then "check-support" else "send-probe"
  }

  function RequestArgs(ip: IpText, k: RequestKind): seq<Pair> {
    match k
    case CheckSupport(f) => [("feature", FeatureText(f))]
    case SendProbe(p) => ParamArgs(ip, p)
  }

  function EncodeText(ip: IpText, r: Request): string {
    LineText(r.token, RequestName(r.kind), RequestArgs(ip, r.kind))
  }

  lemma UnwordsPair(ws: seq<string>, key: string, value: string)
    requires ws != []
    ensures Unwords(ws + [key, value]) == Unwords(ws) + " " + key + " " + value
  {
    UnwordsAppend(ws, key);
    UnwordsAppend(ws + [key], value);
    assert ws + [key] + [value] == ws + [key, value];
    assert Unwords(ws) + " " + key + " " + value == Unwords(ws + [key]) + " " + value;
  }

  /** One `write!(s, " {key} {value}")`. */
  method WriteArg(s: string, ghost head: seq<string>, ghost args: seq<Pair>, key: string, value: string)
    returns (r: string)
    requires head != [] && s == Unwords(head + Flatten(args))
    ensures r == Unwords(head + Flatten(args + [(key, value)]))
  {
    r := s + " " + key + " " + value;
    FlattenAppend(args, [(key, value)]);
    assert Flatten([(key, value)]) == [key, value];
    assert head + (Flatten(args) + [key, value]) == (head + Flatten(args)) + [key, value];
    UnwordsPair(head + Flatten(args), key, value);
  }

  /** `if let Some(v) = ..` around one `write!`: field `k` of the request. */
  method WriteField(s: string, ghost head: seq<string>, ghost fields: seq<Field>, ghost k: nat, key: string,
                    value: Option<string>)
    returns (r: string)
    requires k < |fields| && fields[k] == (key, value)
    requires head != [] && s == Unwords(head + Flatten(FieldArgs(fields[..k])))
    ensures r == Unwords(head + Flatten(FieldArgs(fields[..k + 1])))
  {
    r := s;
    ghost var before := FieldArgs(fields[..k]);
    assert fields[..k + 1][..k] == fields[..k];
    assert before + [] == before;
    if value.Some? {
      r := WriteArg(s, head, before, key, value.value);
    }
  }

  method WriteAddressFields(s: string, ip: IpText, ghost head: seq<string>, ghost f: seq<Field>, p: ProbeParams)
    returns (r: string)
    requires |f| == 12 && f[0] == (ip.Key(p.target), Some(ip.show(p.target)))
    requires f[1] == LocalField(ip, p.localIp) && f[2] == ("protocol", Some(ProtocolText(p.protocol)))
    requires head != [] && s == Unwords(head + Flatten(FieldArgs(f[..0])))
    ensures r == Unwords(head + Flatten(FieldArgs(f[..3])))
  {
    r := WriteField(s, head, f, 0, ip.Key(p.target), Some(ip.show(p.target)));
    r := WriteField(r, head, f, 1, LocalField(ip, p.localIp).0, LocalField(ip, p.localIp).1);
    r := WriteField(r, head, f, 2, "protocol", Some(ProtocolText(p.protocol)));
  }

  method WritePacketFields(s: string, ghost head: seq<string>, ghost f: seq<Field>, p: ProbeParams)
    returns (r: string)
    requires |f| == 12 && f[3] == ("size", NumText(p.size)) && f[4] == ("bit-pattern", NumText(p.bitPattern))
    requires f[5] == ("tos", NumText(p.tos)) && f[6] == ("ttl", NumText(p.ttl))
    requires head != [] && s == Unwords(head + Flatten(FieldArgs(f[..3])))
    ensures r == Unwords(head + Flatten(FieldArgs(f[..7])))
  {
    r := WriteField(s, head, f, 3, "size", NumText(p.size));
    r := WriteField(r, head, f, 4, "bit-pattern", NumText(p.bitPattern));
    r := WriteField(r, head, f, 5, "tos", NumText(p.tos));
    r := WriteField(r, head, f, 6, "ttl", NumText(p.ttl));
  }

  method WriteRoutingFields(s: string, ghost head: seq<string>, ghost f: seq<Field>, p: ProbeParams)
    returns (r: string)
    requires |f| == 12 && f[7] == ("timeout", NumText(p.timeout)) && f[8] == ("port", NumText(p.port))
    requires f[9] == ("local-port", NumText(p.localPort)) && f[10] == ("mark", NumText(p.mark))
    requires f[11] == ("local-device", p.localDevice)
    requires head != [] && s == Unwords(head + Flatten(FieldArgs(f[..7])))
    ensures r == Unwords(head + Flatten(FieldArgs(f[..12])))
  {
    r := WriteField(s, head, f, 7, "timeout", NumText(p.timeout));
    r := WriteField(r, head, f, 8, "port", NumText(p.port));
    r := WriteField(r, head, f, 9, "local-port", NumText(p.localPort));
    r := WriteField(r, head, f, 10, "mark", NumText(p.mark));
    r := WriteField(r, head, f, 11, "local-device", p.localDevice);
  }

  method WriteParams(s: string, ip: IpText, ghost head: seq<string>, p: ProbeParams) returns (r: string)
    requires head != [] && s == Unwords(head)
    ensures r == Unwords(head + Flatten(ParamArgs(ip, p)))
  {
    ghost var f := Fields(ip, p);
    assert head + Flatten(FieldArgs(f[..0])) == head;
    r := WriteAddressFields(s, ip, head, f, p);
    r := WritePacketFields(r, head, f, p);
    r := WriteRoutingFields(r, head, f, p);
    assert f[..12] == f;
  }

  /** `Request::encode`: the string is grown piece by piece. */
  method Encode(ip: IpText, r: Request) returns (s: string)
    ensures s == EncodeText(ip, r)
  {
    ghost var head := [PrintInt(r.token), RequestName(r.kind)];
    s := PrintInt(r.token) + " " + RequestName(r.kind);
    assert head[1..] == [RequestName(r.kind)];
    assert head + Flatten([]) == head && Unwords(head) == s;
    match r.kind {
      case CheckSupport(f) =>
        s := WriteArg(s, head, [], "feature", FeatureText(f));
        assert [] + [("feature", FeatureText(f))] == RequestArgs(ip, r.kind);
      case SendProbe(p) =>
        s := WriteParams(s, ip, head, p);
    }
    s := s + "\n";
  }

  // ----- Parsing -----

  function Bad(name: string, value: string): ParseError {
    InvalidValue(name, value)
  }

  /** Every occurrence must be a number below `limit`; the last one wins. */
  function NumValue(occurrences: seq<Pair>, limit: int): Result<Option<int>, ParseError> {
    if occurrences == [] then Ok(None)
    else
      var _ :- NumValue(occurrences[..|occurrences| - 1], limit);
      var (k, v) := occurrences[|occurrences| - 1];
      match ParseI64(v)
      case None => Err(Bad(k, v))
      case Some(n) => if 0 <= n < limit then Ok(Some(n)) else Err(Bad(k, v))
  }

  function Num(args: seq<Pair>, name: string, limit: int): Result<Option<int>, ParseError> {
    NumValue(Select(args, {name}), limit)
  }

  /** `bit-pattern`: any number, of which the low byte is kept. */
  function PatternValue(occurrences: seq<Pair>): Result<Option<byte>, ParseError> {
    if occurrences == [] then Ok(None)
    else
      var _ :- PatternValue(occurrences[..|occurrences| - 1]);
      var (k, v) := occurrences[|occurrences| - 1];
      match ParseI64(v)
      case None => Err(Bad(k, v))
      case Some(n) => Ok(Some(n % 256))
  }

  function ProtocolValue(occurrences: seq<Pair>): Result<Protocol, ParseError> {
    if occurrences == [] then Ok(Icmp)
    else
      var _ :- ProtocolValue(occurrences[..|occurrences| - 1]);
      var (k, v) := occurrences[|occurrences| - 1];
      match ParseProtocol(v)
      case None => Err(Bad(k, v))
      case Some(p) => Ok(p)
  }

  function TargetValue(ip: IpText, target: Option<Pair>): Result<IpAddr, ParseError> {
    match target
    case None => Err(MissingArgument("ip-4"))
    case Some((k, v)) =>
      match ip.Read(k == "ip-4", v)
      case None => Err(Bad(if k == "ip-4" then "ip-4" else "ip-6", v))
      case Some(a) => Ok(a)
  }

  function LocalValue(ip: IpText, v4: bool, local: Option<Pair>): Result<Option<IpAddr>, ParseError> {
    match local
    case None => Ok(None)
    case Some((_, v)) =>
      match ip.Read(v4, v)
      case None => Err(Bad(if v4 then "local-ip-4" else "local-ip-6", v))
      case Some(a) => Ok(Some(a))
  }

  datatype Numbers = Numbers(size: Option<u16>, tos: Option<byte>, ttl: Option<byte>, timeout: Option<u32>,
                             port: Option<u16>, localPort: Option<u16>, mark: Option<u32>)

  function NumbersOf(args: seq<Pair>): Result<Numbers, ParseError> {
    NumBounds(args);
    var size :- Num(args, "size", 0x1_0000);
    var tos :- Num(args, "tos", 0x100);
    var ttl :- Num(args, "ttl", 0x100);
    var timeout :- Num(args, "timeout", 0x1_0000_0000);
    var port :- Num(args, "port", 0x1_0000);
    var localPort :- Num(args, "local-port", 0x1_0000);
    var mark :- Num(args, "mark", 0x1_0000_0000);
    Ok(Numbers(size, tos, ttl, timeout, port, localPort, mark))
  }

  /** What `parse_probe_params` makes of an argument list. */
  function ParamsOf(ip: IpText, args: seq<Pair>): Result<ProbeParams, ParseError> {
    var target :- TargetValue(ip, LastOf(args, {"ip-4", "ip-6"}));
    var localIp :- LocalValue(ip, target.V4?, LastOf(args, {"local-ip-4", "local-ip-6"}));
    var protocol :- ProtocolValue(Select(args, {"protocol"}));
    var bitPattern :- PatternValue(Select(args, {"bit-pattern"}));
    var n :- NumbersOf(args);
    Ok(ProbeParams(target, localIp, Last(args, "local-device"), protocol, n.size, bitPattern, n.tos, n.ttl,
                   n.timeout, n.port, n.localPort, n.mark))
  }

  lemma NumValueBound(occurrences: seq<Pair>, limit: int)
    ensures NumValue(occurrences, limit).Ok? && NumValue(occurrences, limit).value.Some? ==>
              0 <= NumValue(occurrences, limit).value.value < limit
  {
  }

  lemma NumBounds(args: seq<Pair>)
    ensures forall name, limit :: Num(args, name, limit).Ok? && Num(args, name, limit).value.Some? ==>
                                    0 <= Num(args, name, limit).value.value < limit
  {
    forall name, limit
      ensures Num(args, name, limit).Ok? && Num(args, name, limit).value.Some? ==>
                0 <= Num(args, name, limit).value.value < limit
    {
      NumValueBound(Select(args, {name}), limit);
    }
  }

  // ----- The parser's loops -----

  lemma {:induction false} NumErrorStays(a: seq<Pair>, b: seq<Pair>, limit: int)
    requires NumValue(a, limit).Err?
    ensures NumValue(a + b, limit) == NumValue(a, limit)
  {
    if b == [] {
      assert a + b == a;
    } else {
      NumErrorStays(a, b[..|b| - 1], limit);
      assert (a + b)[..|a + b| - 1] == a + b[..|b| - 1];
    }
  }

  lemma NumPush(a: seq<Pair>, kv: Pair, limit: int)
    requires NumValue(a, limit).Ok?
    ensures NumValue(a + [kv], limit)
            == var n := ParseI64(kv.1);
               if n.Some? && 0 <= n.value < limit then Ok(n) else Err(Bad(kv.0, kv.1))
  {
    assert (a + [kv])[..|a|] == a;
  }

  lemma {:induction false} PatternErrorStays(a: seq<Pair>, b: seq<Pair>)
    requires PatternValue(a).Err?
    ensures PatternValue(a + b) == PatternValue(a)
  {
    if b == [] {
      assert a + b == a;
    } else {
      PatternErrorStays(a, b[..|b| - 1]);
      assert (a + b)[..|a + b| - 1] == a + b[..|b| - 1];
    }
  }

  lemma PatternPush(a: seq<Pair>, kv: Pair)
    requires PatternValue(a).Ok?
    ensures PatternValue(a + [kv])
            == var n := ParseI64(kv.1); if n.Some? then Ok(Some(n.value % 256)) else Err(Bad(kv.0, kv.1))
  {
    assert (a + [kv])[..|a|] == a;
  }

  lemma {:induction false} ProtocolErrorStays(a: seq<Pair>, b: seq<Pair>)
    requires ProtocolValue(a).Err?
    ensures ProtocolValue(a + b) == ProtocolValue(a)
  {
    if b == [] {
      assert a + b == a;
    } else {
      ProtocolErrorStays(a, b[..|b| - 1]);
      assert (a + b)[..|a + b| - 1] == a + b[..|b| - 1];
    }
  }

  lemma ProtocolPush(a: seq<Pair>, kv: Pair)
    requires ProtocolValue(a).Ok?
    ensures ProtocolValue(a + [kv])
            == var p := ParseProtocol(kv.1); if p.Some? then Ok(p.value) else Err(Bad(kv.0, kv.1))
  {
    assert (a + [kv])[..|a|] == a;
  }

  lemma SelectStep(args: seq<Pair>, i: nat, keys: set<string>)
    requires i < |args|
    ensures Select(args[..i + 1], keys)
            == if args[i].0 in keys then Select(args[..i], keys) + [args[i]] else Select(args[..i], keys)
    ensures Select(args, keys) == Select(args[..i + 1], keys) + Select(args[i + 1..], keys)
    ensures args[..|args|] == args
  {
    assert args[..i + 1] == args[..i] + [args[i]];
    SelectPush(args[..i], args[i], keys);
    assert args == args[..i + 1] + args[i + 1..];
    SelectAppend(args[..i + 1], args[i + 1..], keys);
  }

  /** `num`: one pass, stopping at the first bad occurrence. */
  method ReadNum(args: seq<Pair>, name: string, limit: int) returns (r: Result<Option<int>, ParseError>)
    ensures r == Num(args, name, limit)
    ensures r.Ok? && r.value.Some? ==> 0 <= r.value.value < limit
  {
    var out: Option<int> := None;
    assert args[..|args|] == args && args[..0] == [];
    assert NumValue(Select([], {name}), limit) == Ok(out);
    hide Select, NumValue, ParseI64;
    for i := 0 to |args|
      invariant NumValue(Select(args[..i], {name}), limit) == Ok(out)
      invariant out.Some? ==> 0 <= out.value < limit
    {
      SelectStep(args, i, {name});
      var (k, v) := args[i];
      if k == name {
        ghost var seen := Select(args[..i], {name});
        NumPush(seen, args[i], limit);
        var n := ParseI64(v);
        if n.None? || n.value < 0 || n.value >= limit {
          NumErrorStays(seen + [args[i]], Select(args[i + 1..], {name}), limit);
          return Err(Bad(name, v));
        }
        out := n;
      }
    }
    r := Ok(out);
  }

  method ReadPattern(args: seq<Pair>) returns (r: Result<Option<byte>, ParseError>)
    ensures r == PatternValue(Select(args, {"bit-pattern"}))
  {
    var out: Option<byte> := None;
    assert args[..|args|] == args && args[..0] == [];
    assert PatternValue(Select([], {"bit-pattern"})) == Ok(out);
    hide Select, PatternValue, ParseI64;
    for i := 0 to |args|
      invariant PatternValue(Select(args[..i], {"bit-pattern"})) == Ok(out)
    {
      SelectStep(args, i, {"bit-pattern"});
      var (k, v) := args[i];
      if k == "bit-pattern" {
        ghost var seen := Select(args[..i], {"bit-pattern"});
        PatternPush(seen, args[i]);
        var n := ParseI64(v);
        if n.None? {
          PatternErrorStays(seen + [args[i]], Select(args[i + 1..], {"bit-pattern"}));
          return Err(Bad("bit-pattern", v));
        }
        out := Some(n.value % 256);
      }
    }
    r := Ok(out);
  }

  method ReadProtocol(args: seq<Pair>) returns (r: Result<Protocol, ParseError>)
    ensures r == ProtocolValue(Select(args, {"protocol"}))
  {
    var out := Icmp;
    assert args[..|args|] == args && args[..0] == [];
    assert ProtocolValue(Select([], {"protocol"})) == Ok(out);
    hide Select, ProtocolValue, ParseProtocol;
    for i := 0 to |args|
      invariant ProtocolValue(Select(args[..i], {"protocol"})) == Ok(out)
    {
      SelectStep(args, i, {"protocol"});
      var (k, v) := args[i];
      if k == "protocol" {
        ghost var seen := Select(args[..i], {"protocol"});
        ProtocolPush(seen, args[i]);
        var p := ParseProtocol(v);
        if p.None? {
          ProtocolErrorStays(seen + [args[i]], Select(args[i + 1..], {"protocol"}));
          return Err(Bad("protocol", v));
        }
        out := p.value;
      }
    }
    r := Ok(out);
  }

  lemma NothingIsLast(keys: set<string>)
    ensures LastOf([], keys) == None
  {
  }

  /** The first loop of `parse_probe_params`: the last target and the last local address. */
  method ReadAddresses(args: seq<Pair>) returns (target: Option<Pair>, local: Option<Pair>)
    ensures target == LastOf(args, {"ip-4", "ip-6"})
    ensures local == LastOf(args, {"local-ip-4", "local-ip-6"})
  {
    hide LastOf;
    target, local := None, None;
    assert args[..|args|] == args;
    NothingIsLast({"ip-4", "ip-6"});
    NothingIsLast({"local-ip-4", "local-ip-6"});
    for i := 0 to |args|
      invariant target == LastOf(args[..i], {"ip-4", "ip-6"})
      invariant local == LastOf(args[..i], {"local-ip-4", "local-ip-6"})
    {
      assert args[..i + 1] == args[..i] + [args[i]];
      LastOfPush(args[..i], args[i], {"ip-4", "ip-6"});
      LastOfPush(args[..i], args[i], {"local-ip-4", "local-ip-6"});
      var k := args[i].0;
      if k == "ip-4" || k == "ip-6" {
        target := Some(args[i]);
      } else if k == "local-ip-4" || k == "local-ip-6" {
        local := Some(args[i]);
      }
    }
  }

  method ReadNumbers(args: seq<Pair>) returns (r: Result<Numbers, ParseError>)
    ensures r == NumbersOf(args)
  {
    hide Num;
    var size :- ReadNum(args, "size", 0x1_0000);
    var tos :- ReadNum(args, "tos", 0x100);
    var ttl :- ReadNum(args, "ttl", 0x100);
    var timeout :- ReadNum(args, "timeout", 0x1_0000_0000);
    var port :- ReadNum(args, "port", 0x1_0000);
    var localPort :- ReadNum(args, "local-port", 0x1_0000);
    var mark :- ReadNum(args, "mark", 0x1_0000_0000);
    assert && (size.Some? ==> size.value < 0x1_0000) && (tos.Some? ==> tos.value < 0x100)
           && (ttl.Some? ==> ttl.value < 0x100) && (timeout.Some? ==> timeout.value < 0x1_0000_0000)
           && (port.Some? ==> port.value < 0x1_0000) && (localPort.Some? ==> localPort.value < 0x1_0000)
           && (mark.Some? ==> mark.value < 0x1_0000_0000);
    r := Ok(Numbers(size, tos, ttl, timeout, port, localPort, mark));
  }

  method ParseProbeParams(ip: IpText, args: seq<Pair>) returns (r: Result<ProbeParams, ParseError>)
    ensures r == ParamsOf(ip, args)
  {
    var rawTarget, rawLocal := ReadAddresses(args);
    var target :- TargetValue(ip, rawTarget);
    var localIp :- LocalValue(ip, target.V4?, rawLocal);
    var protocol :- ReadProtocol(args);
    var bitPattern :- ReadPattern(args);
    var n :- ReadNumbers(args);
    r := Ok(ProbeParams(target, localIp, Last(args, "local-device"), protocol, n.size, bitPattern, n.tos, n.ttl,
                        n.timeout, n.port, n.localPort, n.mark));
  }

  function ParseLine(ip: IpText, l: Line): Result<Request, ParseError> {
    if l.name == "check-support" then
      match First(l.args, "feature")
      case None => Err(MissingArgument("feature"))
      case Some(f) =>
        match ParseFeature(f) {
          case None => Err(UnknownFeature(f))
          case Some(feature) => Ok(Request(l.token, CheckSupport(feature)))
        }
    else if l.name == "send-probe" then
      var p :- ParamsOf(ip, l.args);
      Ok(Request(l.token, SendProbe(p)))
    else
      Err(UnknownCommand(l.name))
  }

  /** `Request::parse`. */
  function Parse(ip: IpText, line: string): Result<Request, ParseError> {
    var l :- Tokenize(line);
    ParseLine(ip, l)
  }
}
