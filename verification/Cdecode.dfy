// The helper's own decoder of `send-probe` (cdecode.rs): C `strtol` numbers narrowed to `int`,
// unknown names ignored, nothing accepted after a bad value.
module Cdecode {
  import opened Common
  import opened Decimal
  import opened Tokenizer
  import opened Requests

  datatype InvalidArgument = InvalidArgument

  datatype CProbeParams = CProbeParams(
    ipVersion: byte,
    remoteAddress: Option<string>,
    localAddress: Option<string>,
    localDevice: Option<string>,
    protocol: Protocol,
    destPort: i32,
    localPort: i32,
    typeOfService: i32,
    routingMark: u32,
    ttl: i32,
    packetSize: i32,
    bitPattern: i32,
    timeout: i32)

  const DEFAULTS := CProbeParams(0, None, None, None, Icmp, 0, 0, 0, 0, 255, 64, 0, 10)

  const MIN_LOCAL_PORT := 1024

  /** The arguments that carry a C integer. */
  datatype NumKey = Port | LocalPort | Tos | MarkKey | Size | Pattern | Ttl | Timeout

  function KeyName(k: NumKey): string {
    match k
    case Port => "port"
    case LocalPort => "local-port"
    case Tos => "tos"
    case MarkKey => "mark"
    case Size => "size"
    case Pattern => "bit-pattern"
    case Ttl => "ttl"
    case Timeout => "timeout"
  }

  function NumKeyOf(name: string): Option<NumKey> {
    if name == "port" then Some(Port)
    else if name == "local-port" then Some(LocalPort)
    else if name == "tos" then Some(Tos)
    else if name == "mark" then Some(MarkKey)
    else if name == "size" then Some(Size)
    else if name == "bit-pattern" then Some(Pattern)
    else if name == "ttl" then Some(Ttl)
    else if name == "timeout" then Some(Timeout)
    else None
  }

  function GetNum(p: CProbeParams, k: NumKey): int {
    match k
    case Port => p.destPort
    case LocalPort => p.localPort
    case Tos => p.typeOfService
    case MarkKey => p.routingMark
    case Size => p.packetSize
    case Pattern => p.bitPattern
    case Ttl => p.ttl
    case Timeout => p.timeout
  }

  /** `c_int(value)?`, or `strtol_full(value)? as u32` for `mark`. */
  function ReadC(k: NumKey, value: string): Option<int> {
    match StrtolValue(value)
    case None => None
    case Some(n) => if k == MarkKey then Some(WrapU32(n)) else Some(WrapI32(n))
  }

  function SetNum(p: CProbeParams, k: NumKey, n: int): CProbeParams
    requires if k == MarkKey then 0 <= n < 0x1_0000_0000 else -0x8000_0000 <= n < 0x8000_0000
  {
    match k
    case Port => p.(destPort := n)
    case LocalPort => p.(localPort := n)
    case Tos => p.(typeOfService := n)
    case MarkKey => p.(routingMark := n)
    case Size => p.(packetSize := n)
    case Pattern => p.(bitPattern := n)
    case Ttl => p.(ttl := n)
    case Timeout => p.(timeout := n)
  }

  function AssignNum(p: CProbeParams, k: NumKey, value: string): Result<CProbeParams, InvalidArgument> {
    match ReadC(k, value)
    case None => Err(InvalidArgument)
    case Some(n) =>
      if k == LocalPort && n < MIN_LOCAL_PORT then Err(InvalidArgument) else Ok(SetNum(p, k, n))
  }

  /** `decode_probe_argument` for one name and value. */
  function Assign(p: CProbeParams, kv: Pair): Result<CProbeParams, InvalidArgument> {
    var (name, value) := kv;
    if name == "ip-4" then Ok(p.(ipVersion := 4, remoteAddress := Some(value)))
    else if name == "ip-6" then Ok(p.(ipVersion := 6, remoteAddress := Some(value)))
    else if name == "local-ip-4" || name == "local-ip-6" then Ok(p.(localAddress := Some(value)))
    else if name == "local-device" then Ok(p.(localDevice := Some(value)))
    else if name == "protocol" then
      match ParseProtocol(value)
      case None => Err(InvalidArgument)
      case Some(t) => Ok(p.(protocol := t))
    else
      match NumKeyOf(name)
      case None => Ok(p)
      case Some(k) => AssignNum(p, k, value)
  }

  function DecodeArgs(args: seq<Pair>): Result<CProbeParams, InvalidArgument> {
    if args == [] then Ok(DEFAULTS)
    else
      var p :- DecodeArgs(args[..|args| - 1]);
      Assign(p, args[|args| - 1])
  }

  lemma {:induction false} DecodeErrorStays(a: seq<Pair>, b: seq<Pair>)
    requires DecodeArgs(a).Err?
    ensures DecodeArgs(a + b) == DecodeArgs(a)
  {
    if b == [] {
      assert a + b == a;
    } else {
      DecodeErrorStays(a, b[..|b| - 1]);
      assert (a + b)[..|a + b| - 1] == a + b[..|b| - 1];
    }
  }

  /** `decode_send_probe`: one pass over the arguments, ended by the first failure. */
  method DecodeSendProbe(line: Line) returns (r: Result<CProbeParams, InvalidArgument>)
    ensures r == DecodeArgs(line.args)
  {
    var p := DEFAULTS;
    for i := 0 to |line.args|
      invariant DecodeArgs(line.args[..i]) == Ok(p)
    {
      assert line.args[..i + 1][..i] == line.args[..i];
      var step := Assign(p, line.args[i]);
      if step.Err? {
        DecodeErrorStays(line.args[..i + 1], line.args[i + 1..]);
        assert line.args[..i + 1] + line.args[i + 1..] == line.args;
        return step;
      }
      p := step.value;
    }
    assert line.args[..|line.args|] == line.args;
    r := Ok(p);
  }
}
