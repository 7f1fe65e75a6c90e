// The probing state machine (engine.rs) as a function of state, event, time and random draws.
module EngineSpec {
  import opened Common
  import opened Requests
  import opened Mpls
  import opened Responses
  import opened Stats
  import opened Histories
  import opened Hops

  const MAX_HOST := 256
  const MIN_PACKET := 28
  const MIN_SEQUENCE := 33000
  const MAX_SEQUENCE := 65536
  const DEFAULT_NUMHOSTS := 10
  const HISTORY_LEN := 1024

  /** Times are real seconds. */
  datatype Config = Config(
    protocol: Protocol, interval: real, maxPing: nat, interactive: bool, forceMaxPing: bool, packetSize: int,
    bitPattern: int, tos: byte, mark: u32, firstTtl: byte, maxTtl: byte, dueTtl: byte, maxUnknown: nat,
    probeTimeout: nat, graceTime: real, cacheTimeout: Option<real>, remotePort: u16, localPort: u16,
    device: Option<string>, fields: string, dns: bool, showMpls: bool, ipinfoFields: seq<byte>)

  datatype SeqSlot = SeqSlot(hop: byte, transit: bool, savedSeq: int)

  datatype UserAction =
    | Pause | Resume | Reset | ToggleDns | ToggleAsn | ToggleMpls
    | SetInterval(ms: nat) | SetPacketSize(bytes: int) | SetBitPattern(pattern: int) | SetTos(tos: byte)
    | SetFirstTtl(first: byte) | SetMaxTtl(max: byte) | CycleProtocol | SetFields(fields: string)

  datatype Event = Tick | Answer(token: int, kind: ResponseKind) | Action(action: UserAction)

  datatype Command = SendProbe(token: int, params: ProbeParams) | Resolve(addr: IpAddr) | NextWake(at: real) | Finished

  /** The two raw values a batch start may draw from the generator. */
  datatype Draws = Draws(size: nat, pattern: nat)

  datatype State = State(
    cfg: Config, target: IpAddr, local: Option<IpAddr>, hops: seq<HopState>, seqs: seq<SeqSlot>, nextSequence: int,
    batchAt: nat, numhosts: nat, numPing: nat, packetSize: int, bitPattern: int, nextSend: Option<real>,
    graceStart: Option<real>, finished: bool, paused: bool)

  /** The shape every reachable state has. */
  predicate Shape(s: State) {
    && |s.hops| == MAX_HOST && |s.seqs| == MAX_SEQUENCE
    && MIN_SEQUENCE <= s.nextSequence < MAX_SEQUENCE
    && s.batchAt <= 254
    && MinHop(s.cfg) <= s.batchAt
    && s.numhosts >= 1
    && (forall h :: 0 <= h < MAX_HOST ==> s.hops[h].stats.rtts.returned >= 0 && s.hops[h].history.capacity == HISTORY_LEN)
  }

  function MinHop(cfg: Config): nat {
    Max(cfg.firstTtl, 1) - 1
  }

  function Init(cfg: Config, target: IpAddr, local: Option<IpAddr>): (s: State)
    ensures Shape(s)
  {
    State(cfg, target, local, seq(MAX_HOST, _ => NewHop(HISTORY_LEN)), seq(MAX_SEQUENCE, _ => SeqSlot(0, false, 0)),
          MIN_SEQUENCE, MinHop(cfg), DEFAULT_NUMHOSTS, 0, cfg.packetSize, cfg.bitPattern, None, None, false, false)
  }

  /** Non-positive durations become zero. */
  function Secs(seconds: real): (r: real)
    ensures r >= 0.0
  {
    if seconds > 0.0 then seconds else 0.0
  }

  /** `duration_since`, which saturates at zero. */
  function Since(now: real, then_: real): (r: real)
    ensures r >= 0.0
  {
    if now >= then_ then now - then_ else 0.0
  }

  // ----- Sending -----

  function ChooseSize(cfg: Config, draws: Draws): int {
    if cfg.packetSize < 0 then
      var m := -cfg.packetSize;
      if m <= MIN_PACKET then MIN_PACKET else MIN_PACKET + draws.size % (m - MIN_PACKET)
    else cfg.packetSize
  }

  function ChoosePattern(cfg: Config, draws: Draws): int {
    if cfg.bitPattern < 0 then -(256 + (draws.pattern % 256) as int) else cfg.bitPattern
  }

  /** The request sent for hop `at`. */
  function PingParams(s: State, at: nat): ProbeParams {
    ProbeParams(s.target, s.local, s.cfg.device, s.cfg.protocol,
                Some(Min(Abs(s.packetSize), 65535)), Some(s.bitPattern % 256), Some(s.cfg.tos),
                Some((at + 1) % 256), Some(s.cfg.probeTimeout % 0x1_0000_0000),
                if s.cfg.remotePort != 0 then Some(s.cfg.remotePort) else None,
                if s.cfg.localPort != 0 then Some(s.cfg.localPort) else None,
                if s.cfg.mark != 0 then Some(s.cfg.mark) else None)
  }

  function Advance(sequence: int): int {
    if sequence + 1 >= MAX_SEQUENCE then MIN_SEQUENCE else sequence + 1
  }

  /** `send_query`: the hop counts the probe, the slot of the token now names it. */
  function SendQuery(s: State, at: nat, now: real): (r: State)
    requires Shape(s) && at < MAX_HOST
    ensures Shape(r)
  {
    s.(nextSequence := Advance(s.nextSequence),
       hops := s.hops[at := HopAfterSend(s.hops[at], now)],
       seqs := s.seqs[s.nextSequence := SeqSlot(at, true, s.hops[at].stats.xmit + 1)])
  }

  predicate Shows(h: HopState, target: IpAddr) {
    h.addr == Some(target)
  }

  /** The first hop from `i` below `at` that shows the target and may be the destination. */
  function TargetBefore(s: State, i: nat, at: nat): (r: Option<nat>)
    requires at <= |s.hops| && i <= at
    ensures r.Some? ==> i <= r.value < at && Shows(s.hops[r.value], s.target) && s.cfg.dueTtl <= r.value + 1
    ensures r.Some? ==> forall j :: i <= j < r.value ==> !(Shows(s.hops[j], s.target) && s.cfg.dueTtl <= j + 1)
    ensures r.None? ==> forall j :: i <= j < at ==> !(Shows(s.hops[j], s.target) && s.cfg.dueTtl <= j + 1)
    decreases at - i
  {
    if i == at then None
    else if Shows(s.hops[i], s.target) && s.cfg.dueTtl <= i + 1 then Some(i)
    else TargetBefore(s, i + 1, at)
  }

  /** Unanswered hops from `i` up to `at`. */
  function UnknownCount(s: State, i: nat, at: nat): nat
    requires at <= |s.hops| && i <= at
    decreases at - i
  {
    if i == at then 0 else (if s.hops[i].addr.None? then 1 else 0) + UnknownCount(s, i + 1, at)
  }

  function CacheSkips(s: State, at: nat, now: real): bool
    requires at < |s.hops|
  {
    s.cfg.cacheTimeout.Some? && s.hops[at].seen.Some? && s.hops[at].up
    && Since(now, s.hops[at].seen.value) <= s.cfg.cacheTimeout.value
  }

  /** After hop `at`: does the batch end, and with how many hosts? */
  function BatchEnd(s: State, at: nat): (r: Option<nat>)
    requires MinHop(s.cfg) <= at < |s.hops|
    ensures r.Some? ==> r.value >= 1
  {
    var first := MinHop(s.cfg);
    var hit := TargetBefore(s, first, at);
    var unknown := UnknownCount(s, first, if hit.Some? then hit.value else at);
    if ((unknown > s.cfg.maxUnknown || Shows(s.hops[at], s.target)) && s.cfg.dueTtl <= at + 1)
       || at + 1 >= s.cfg.maxTtl
    then Some(at - first + 1)
    else match hit case Some(i) => Some(i - first + 1) case None => None
  }

  /** The start of a batch picks its packet size and bit pattern. */
  function StartBatch(s: State, draws: Draws): State {
    if s.batchAt < s.cfg.firstTtl then
      s.(packetSize := ChooseSize(s.cfg, draws), bitPattern := ChoosePattern(s.cfg, draws))
    else s
  }

  function ProbeBatchHop(s: State, now: real): (r: State)
    requires Shape(s)
    ensures Shape(r)
  {
    if CacheSkips(s, s.batchAt, now) then s else SendQuery(s, s.batchAt, now)
  }

  function EndOrAdvance(s: State): (r: (State, bool))
    requires Shape(s)
    ensures Shape(r.0)
  {
    match BatchEnd(s, s.batchAt)
    case Some(n) => (s.(numhosts := n, batchAt := MinHop(s.cfg)), true)
    case None => (s.(batchAt := s.batchAt + 1), false)
  }

  function SentCommand(s: State, now: real): seq<Command>
    requires Shape(s)
  {
    if CacheSkips(s, s.batchAt, now) then [] else [Command.SendProbe(s.nextSequence, PingParams(s, s.batchAt))]
  }

  /** `send_batch`: probe the batch hop, then end the batch, which the flag tells, or advance. */
  function SendBatch(s: State, now: real, draws: Draws): (r: (State, seq<Command>, bool))
    requires Shape(s)
    ensures Shape(r.0)
  {
    var s1 := StartBatch(s, draws);
    var (s2, ended) := EndOrAdvance(ProbeBatchHop(s1, now));
    (s2, SentCommand(s1, now), ended)
  }

  function EndTransit(hops: seq<HopState>): (r: seq<HopState>)
    ensures |r| == |hops|
  {
    seq(|hops|, i requires 0 <= i < |hops| => HopAfterEndTransit(hops[i]))
  }

  function CyclesDone(s: State): bool {
    s.numPing >= s.cfg.maxPing && (!s.cfg.interactive || s.cfg.forceMaxPing)
  }

  /** Seconds until the next probe: the interval spread over the hosts of the last batch. */
  function Pace(s: State): real {
    Secs(s.cfg.interval / Max(s.numhosts, 1) as real)
  }

  function OnTick(s: State, now: real, draws: Draws): (r: (State, seq<Command>))
    requires Shape(s)
    ensures Shape(r.0)
  {
    if s.finished || s.paused then (s, [])
    else if s.graceStart.Some? then
      if Since(now, s.graceStart.value) >= Secs(s.cfg.graceTime)
      then (s.(finished := true, hops := EndTransit(s.hops)), [Finished])
      else (s, [])
    else if s.nextSend.Some? && now < s.nextSend.value then (s, [])
    else if CyclesDone(s) then (s.(graceStart := Some(now)), [])
    else
      var (s1, out, ended) := SendBatch(s, now, draws);
      var s2 := if ended then s1.(numPing := s1.numPing + 1) else s1;
      (s2.(nextSend := Some(now + Pace(s2))), out)
  }

  // ----- Answers -----

  predicate KnownToken(token: int) {
    0 <= token < MAX_SEQUENCE
  }

  function HopErrorOf(result: ProbeResult): Option<HopError> {
    match result
    case NoRouteHost => Some(ErrNoRouteHost)
    case _ => None
  }

  /** The four terminal send failures. */
  function FailureOf(kind: ResponseKind): Option<HopError> {
    match kind
    case Bare(NetworkDown) => Some(ErrNetworkDown)
    case Bare(HostDown) => Some(ErrHostDown)
    case Bare(NoRouteNetwork) => Some(ErrNoRouteNetwork)
    case Bare(NoRoute) => Some(ErrNoRouteHost)
    case _ => None
  }

  function ReplyFor(s: State, slot: SeqSlot, kind: ResponseKind, now: real): ReplyInfo
    requires kind.Probe?
  {
    ReplyInfo(slot.savedSeq, kind.addr, kind.rtt, kind.mpls, kind.result, HopErrorOf(kind.result), now,
              !(s.cfg.dueTtl > 0 && kind.addr == s.target) || s.cfg.dueTtl <= slot.hop + 1,
              s.cfg.cacheTimeout.Some?)
  }

  function OnAnswer(s: State, token: int, kind: ResponseKind, now: real): (r: (State, seq<Command>))
    requires Shape(s)
    ensures Shape(r.0)
  {
    if !KnownToken(token) || s.paused || !s.seqs[token].transit then (s, [])
    else
      var slot := s.seqs[token];
      var hop := s.hops[slot.hop];
      if kind.Probe? then
        (s.(seqs := s.seqs[token := slot.(transit := false)],
            hops := s.hops[slot.hop := HopAfterReply(hop, ReplyFor(s, slot, kind, now))]),
         if IsNewResponder(hop.addrs, kind.addr) then [Resolve(kind.addr)] else [])
      else if kind == Bare(NoReply) then
        (s.(hops := s.hops[slot.hop := HopAfterNoReply(hop, slot.savedSeq)]), [])
      else
        match FailureOf(kind)
        case Some(e) =>
          (s.(seqs := s.seqs[token := slot.(transit := false)],
              hops := s.hops[slot.hop := HopAfterSendError(hop, e, slot.savedSeq)]), [])
        case None => (s, [])
  }

  // ----- User actions -----

  function ClearTransit(seqs: seq<SeqSlot>): (r: seq<SeqSlot>)
    ensures |r| == |seqs|
  {
    seq(|seqs|, i requires 0 <= i < |seqs| => seqs[i].(transit := false))
  }

  function OnReset(s: State): (r: State)
    requires Shape(s)
    ensures Shape(r)
  {
    s.(hops := seq(MAX_HOST, _ => NewHop(HISTORY_LEN)), seqs := ClearTransit(s.seqs), batchAt := MinHop(s.cfg),
       numhosts := DEFAULT_NUMHOSTS)
  }

  function NextProtocol(p: Protocol): Protocol {
    match p
    case Icmp => Udp
    case Udp => Tcp
    case Tcp => Icmp
    case Sctp => Icmp
  }

  function ClampTtl(t: byte, maxTtl: byte): byte {
    Min(Max(t, 1), Max(maxTtl, 1))
  }

  /** What an action does to the configuration. */
  function Reconfigure(cfg: Config, a: UserAction): (r: Config)
    ensures !a.SetFirstTtl? ==> r.firstTtl == cfg.firstTtl
  {
    match a
    case ToggleDns => cfg.(dns := !cfg.dns)
    case ToggleMpls => cfg.(showMpls := !cfg.showMpls)
    case ToggleAsn => cfg.(ipinfoFields := if cfg.ipinfoFields == [] then [0] else [])
    case SetInterval(ms) => cfg.(interval := Max(ms, 1) as real / 1000.0)
    case SetPacketSize(n) => cfg.(packetSize := n)
    case SetBitPattern(n) => cfg.(bitPattern := n)
    case SetTos(t) => cfg.(tos := t)
    case SetFirstTtl(t) => cfg.(firstTtl := ClampTtl(t, cfg.maxTtl))
    case SetMaxTtl(t) => cfg.(maxTtl := Max(t, Max(cfg.firstTtl, 1)))
    case CycleProtocol => cfg.(protocol := NextProtocol(cfg.protocol))
    case SetFields(f) => cfg.(fields := f)
    case Pause => cfg
    case Resume => cfg
    case Reset => cfg
  }

  function OnAction(s: State, a: UserAction): (r: State)
    requires Shape(s)
    ensures Shape(r)
  {
    var cfg := Reconfigure(s.cfg, a);
    if a == Pause then s.(paused := true)
    else if a == Resume then s.(paused := false)
    else if a == Reset || a == CycleProtocol then OnReset(s.(cfg := cfg))
    else if a.SetFirstTtl? then s.(cfg := cfg, batchAt := Max(s.batchAt, MinHop(cfg)))
    else s.(cfg := cfg)
  }

  // ----- One event -----

  function Wake(s: State, now: real): Option<real> {
    if s.finished || s.paused then None
    else if s.graceStart.Some? then Some(s.graceStart.value + Secs(s.cfg.graceTime))
    else Some(if s.nextSend.Some? then s.nextSend.value else now)
  }

  function React(s: State, ev: Event, now: real, draws: Draws): (r: (State, seq<Command>))
    requires Shape(s)
    ensures Shape(r.0)
  {
    match ev
    case Tick => OnTick(s, now, draws)
    case Answer(token, kind) => OnAnswer(s, token, kind, now)
    case Action(a) => (OnAction(s, a), [])
  }

  /** `handle`: react, then announce the next wake-up. */
  function Handle(s: State, ev: Event, now: real, draws: Draws): (r: (State, seq<Command>))
    requires Shape(s)
    ensures Shape(r.0)
  {
    var (s', out) := React(s, ev, now, draws);
    (s', out + match Wake(s', now) case Some(t) => [NextWake(t)] case None => [])
  }
}
