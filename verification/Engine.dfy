// The engine itself (engine.rs): fields, hop objects and the slot array, updated in place by
// methods that do to the object exactly what the specification does to its view.
module Engines {
  import opened Common
  import opened Requests
  import opened Mpls
  import opened Responses
  import opened Stats
  import opened Histories
  import opened Hops
  import opened EngineSpec

  method FreshHops() returns (hs: seq<Hop>)
    ensures |hs| == MAX_HOST
    ensures forall i :: 0 <= i < |hs| ==> fresh(hs[i]) && fresh(hs[i].stats) && fresh(hs[i].history)
    ensures forall i :: 0 <= i < |hs| ==> hs[i].View() == NewHop(HISTORY_LEN)
    ensures forall i, j :: 0 <= i < j < |hs| ==>
              hs[i] != hs[j] && hs[i].stats != hs[j].stats && hs[i].history != hs[j].history
  {
    hs := [];
    while |hs| < MAX_HOST
      invariant |hs| <= MAX_HOST
      invariant forall i :: 0 <= i < |hs| ==> fresh(hs[i]) && fresh(hs[i].stats) && fresh(hs[i].history)
      invariant forall i :: 0 <= i < |hs| ==> hs[i].View() == NewHop(HISTORY_LEN)
      invariant forall i, j :: 0 <= i < j < |hs| ==>
                  hs[i] != hs[j] && hs[i].stats != hs[j].stats && hs[i].history != hs[j].history
    {
      var h := new Hop(HISTORY_LEN);
      hs := hs + [h];
    }
  }

  lemma ShapeAt(s: State, at: nat)
    requires Shape(s) && at < MAX_HOST
    ensures |s.hops| == MAX_HOST && |s.seqs| == MAX_SEQUENCE && MIN_SEQUENCE <= s.nextSequence < MAX_SEQUENCE
    ensures s.hops[at].history.capacity == HISTORY_LEN && s.hops[at].stats.rtts.returned >= 0
    ensures MinHop(s.cfg) <= s.batchAt <= 254
  {
  }

  lemma SettingsKeepShape(s: State, a: UserAction)
    requires Shape(s) && !a.SetFirstTtl?
    ensures Shape(s.(cfg := Reconfigure(s.cfg, a)))
    ensures a in {UserAction.Pause, UserAction.Resume, UserAction.Reset} ==> Reconfigure(s.cfg, a) == s.cfg
  {
  }

  /** A hop that ends the displayed path: it shows the target, or an error. */
  predicate EndsPath(h: HopState, target: IpAddr) {
    Shows(h, target) || h.err.Some?
  }

  class Engine {
    var cfg: Config
    const target: IpAddr
    const local: Option<IpAddr>
    const hops: seq<Hop>
    const seqs: array<SeqSlot>
    var nextSequence: int
    var batchAt: nat
    var numhosts: nat
    var numPing: nat
    var packetSize: int
    var bitPattern: int
    var nextSend: Option<real>
    var graceStart: Option<real>
    var finished: bool
    var paused: bool

    /** The objects that make up the hops. */
    ghost function Parts(): set<object> {
      (set i | 0 <= i < |hops| :: hops[i]) + (set i | 0 <= i < |hops| :: hops[i].stats)
      + (set i | 0 <= i < |hops| :: hops[i].history)
    }

    /** Hops share nothing. */
    ghost predicate Apart() {
      && |hops| == MAX_HOST && seqs.Length == MAX_SEQUENCE
      && forall i, j :: 0 <= i < j < |hops| ==>
           hops[i] != hops[j] && hops[i].stats != hops[j].stats && hops[i].history != hops[j].history
    }

    function Views(): (r: seq<HopState>)
      reads Parts()
      ensures |r| == |hops|
    {
      seq(|hops|, i requires 0 <= i < |hops| reads Parts() => hops[i].View())
    }

    function View(): State
      reads this, seqs, Parts()
    {
      State(cfg, target, local, Views(), seqs[..], nextSequence, batchAt, numhosts, numPing, packetSize, bitPattern,
            nextSend, graceStart, finished, paused)
    }

    ghost predicate Valid()
      reads this, seqs, Parts()
    {
      Apart() && Shape(View())
    }

    constructor (cfg: Config, target: IpAddr, local: Option<IpAddr>)
      ensures Valid() && View() == Init(cfg, target, local)
      ensures fresh(this) && fresh(seqs) && fresh(Parts())
    {
      var hs := FreshHops();
      hops := hs;
      seqs := new SeqSlot[MAX_SEQUENCE](_ => SeqSlot(0, false, 0));
      nextSequence, batchAt, numhosts, numPing := MIN_SEQUENCE, MinHop(cfg), DEFAULT_NUMHOSTS, 0;
      packetSize, bitPattern := cfg.packetSize, cfg.bitPattern;
      nextSend, graceStart, finished, paused := None, None, false, false;
      this.cfg, this.target, this.local := cfg, target, local;
      new;
      assert View().hops == Init(cfg, target, local).hops;
      assert View().seqs == Init(cfg, target, local).seqs;
    }

    // ----- One hop at a time -----

    /** After hop `at` alone was touched, only its view can differ. */
    twostate lemma OnlyHop(at: nat)
      requires Apart() && at < MAX_HOST
      requires forall o :: o in Parts() && o != hops[at] && o != hops[at].stats && o != hops[at].history ==> unchanged(o)
      ensures Views() == old(Views())[at := hops[at].View()]
    {
      forall i | 0 <= i < MAX_HOST && i != at ensures hops[i].View() == old(hops[i].View()) {
        assert hops[i] in Parts() && hops[i].stats in Parts() && hops[i].history in Parts();
      }
    }

    /** As long as no hop is touched, no hop looks different. */
    twostate lemma Unmoved()
      requires Apart() && forall o :: o in Parts() ==> unchanged(o)
      ensures Views() == old(Views())
    {
      forall i | 0 <= i < MAX_HOST ensures hops[i].View() == old(hops[i].View()) {
        assert hops[i] in Parts() && hops[i].stats in Parts() && hops[i].history in Parts();
      }
    }

    method SendTo(at: nat, now: real) returns (savedSeq: int)
      requires Apart() && at < MAX_HOST && Views()[at].history.capacity > 0
      modifies hops[at], hops[at].stats, hops[at].history
      ensures Views() == old(Views())[at := HopAfterSend(old(Views())[at], now)]
      ensures savedSeq == old(Views())[at].stats.xmit + 1
    {
      assert HopAfterSend(Views()[at], now).stats.xmit == Views()[at].stats.xmit + 1;
      hide HopAfterSend;
      savedSeq := hops[at].RecordSend(now);
      OnlyHop(at);
    }

    /** The slot array after one slot was written. */
    method SetSlot(token: nat, slot: SeqSlot)
      requires Apart() && token < MAX_SEQUENCE
      modifies seqs
      ensures seqs[..] == old(seqs[..])[token := slot]
    {
      seqs[token] := slot;
    }

    // ----- Sending -----

    method ProbeFor(at: nat) returns (p: ProbeParams)
      requires Valid()
      ensures p == PingParams(View(), at)
    {
      p := ProbeParams(target, local, None, cfg.protocol, Some(Min(Abs(packetSize), 65535)), Some(bitPattern % 256),
                       Some(cfg.tos), Some((at + 1) % 256), Some(cfg.probeTimeout % 0x1_0000_0000), None, None, None);
      if cfg.remotePort != 0 {
        p := p.(port := Some(cfg.remotePort));
      }
      if cfg.localPort != 0 {
        p := p.(localPort := Some(cfg.localPort));
      }
      if cfg.mark != 0 {
        p := p.(mark := Some(cfg.mark));
      }
      p := p.(localDevice := cfg.device);
    }

    method NewSequence() returns (token: int)
      modifies `nextSequence
      ensures token == old(nextSequence) && nextSequence == Advance(token)
    {
      token := nextSequence;
      nextSequence := nextSequence + 1;
      if nextSequence >= MAX_SEQUENCE {
        nextSequence := MIN_SEQUENCE;
      }
    }

    /** Count the probe at its hop and let the token name it. */
    method SaveSequence(token: nat, at: nat, now: real)
      requires Apart() && at < MAX_HOST && token < MAX_SEQUENCE && Views()[at].history.capacity > 0
      modifies seqs, Parts()
      ensures Views() == old(Views())[at := HopAfterSend(old(Views())[at], now)]
      ensures seqs[..] == old(seqs[..])[token := SeqSlot(at, true, old(Views())[at].stats.xmit + 1)]
    {
      hide HopAfterSend;
      var savedSeq := SendTo(at, now);
      label Counted:
      SetSlot(token, SeqSlot(at, true, savedSeq));
      Unmoved@Counted();
    }

    method SendQuery(at: nat, now: real) returns (out: seq<Command>)
      requires Valid() && at < MAX_HOST
      modifies `nextSequence, seqs, Parts()
      ensures Valid() && View() == EngineSpec.SendQuery(old(View()), at, now)
      ensures out == [Command.SendProbe(old(nextSequence), PingParams(old(View()), at))]
    {
      ghost var s := View();
      hide HopAfterSend, PingParams, Shape, Advance, Views;
      ShapeAt(s, at);
      var params := ProbeFor(at);
      var token := NewSequence();
      Unmoved();
      SaveSequence(token, at, now);
      out := [Command.SendProbe(token, params)];
      assert View() == EngineSpec.SendQuery(s, at, now);
    }

    /** Nothing but size and pattern may change, and only where the specification starts a batch. */
    method ChooseProbe(draws: Draws)
      requires Valid()
      modifies `packetSize, `bitPattern
      ensures View() == StartBatch(old(View()), draws)
    {
      if batchAt < cfg.firstTtl {
        if cfg.packetSize < 0 {
          var m := -cfg.packetSize;
          if m <= MIN_PACKET {
            packetSize := MIN_PACKET;
          } else {
            packetSize := MIN_PACKET + draws.size % (m - MIN_PACKET);
          }
        } else {
          packetSize := cfg.packetSize;
        }
        bitPattern := if cfg.bitPattern < 0 then -(256 + draws.pattern % 256) else cfg.bitPattern;
      }
    }

    /** The scan over the hops before `at`: unanswered hops up to the destination, if it shows. */
    method ScanBatch(at: nat) returns (unknown: nat, hit: Option<nat>)
      requires Valid() && MinHop(cfg) <= at < MAX_HOST
      ensures hit == TargetBefore(View(), MinHop(cfg), at)
      ensures unknown == UnknownCount(View(), MinHop(cfg), if hit.Some? then hit.value else at)
    {
      ghost var s := View();
      var first := MinHop(cfg);
      var i := first;
      ghost var goal := TargetBefore(s, first, at);
      ghost var end := if goal.Some? then goal.value else at;
      unknown, hit := 0, None;
      while i < at
        invariant first <= i <= end
        invariant goal == TargetBefore(s, i, at)
        invariant unknown + UnknownCount(s, i, end) == UnknownCount(s, first, end)
      {
        assert s.hops[i] == hops[i].View();
        if hops[i].addr.None? {
          unknown := unknown + 1;
        }
        if hops[i].addr == Some(target) && cfg.dueTtl <= i + 1 {
          hit := Some(i);
          return;
        }
        i := i + 1;
      }
    }

    /** The two ways a batch ends: the destination shows before `at`, or the batch is over at `at`. */
    method Decide(at: nat) returns (hit: Option<nat>, over: bool)
      requires Valid() && MinHop(cfg) <= at < MAX_HOST
      ensures hit.Some? ==> MinHop(cfg) <= hit.value
      ensures BatchEnd(View(), at)
              == if over then Some(at - MinHop(cfg) + 1)
                 else if hit.Some? then Some(hit.value - MinHop(cfg) + 1) else None
    {
      ghost var s := View();
      assert s.hops[at] == hops[at].View();
      var unknown;
      unknown, hit := ScanBatch(at);
      assert View() == s;
      hide TargetBefore, UnknownCount, Shape;
      var dueOk := cfg.dueTtl <= at + 1;
      over := ((unknown > cfg.maxUnknown || hops[at].addr == Some(target)) && dueOk) || at + 1 >= cfg.maxTtl;
    }

    method EndBatch(at: nat) returns (restart: bool)
      requires Valid() && at == batchAt
      modifies `numhosts, `batchAt
      ensures Valid() && (View(), restart) == EndOrAdvance(old(View()))
    {
      ghost var s := View();
      var first := MinHop(cfg);
      hide BatchEnd, Shape;
      ShapeAt(s, 0);
      var hit, over := Decide(at);
      assert View() == s;
      restart := hit.Some?;
      if hit.Some? {
        numhosts := hit.value - first + 1;
      }
      if over {
        restart := true;
        numhosts := at - first + 1;
      }
      batchAt := if restart then first else batchAt + 1;
      Unmoved();
      assert View() == EndOrAdvance(s).0;
    }

    method SendBatch(now: real, draws: Draws) returns (out: seq<Command>, ended: bool)
      requires Valid()
      modifies this, seqs, Parts()
      ensures Valid() && (View(), out, ended) == EngineSpec.SendBatch(old(View()), now, draws)
    {
      hide HopAfterSend, PingParams, BatchEnd, StartBatch;
      out := [];
      ChooseProbe(draws);
      ghost var s1 := View();
      var at := batchAt;
      assert s1.hops[at] == hops[at].View();
      var skip := cfg.cacheTimeout.Some? && hops[at].seen.Some? && hops[at].up
                  && Since(now, hops[at].seen.value) <= cfg.cacheTimeout.value;
      if !skip {
        out := SendQuery(at, now);
      }
      ended := EndBatch(at);
    }

    /** Every hop becomes what the specification makes of it, whatever its state. */
    method EndTransit()
      requires Apart()
      modifies Parts()
      ensures Views() == EngineSpec.EndTransit(old(Views()))
    {
      hide HopAfterEndTransit;
      var i := 0;
      while i < |hops|
        invariant i <= |hops|
        invariant forall k :: 0 <= k < i ==> hops[k].View() == HopAfterEndTransit(old(hops[k].View()))
        invariant forall k :: i <= k < |hops| ==> hops[k].View() == old(hops[k].View())
      {
        label Before:
        hops[i].EndTransit();
        OthersStay@Before(i);
        i := i + 1;
      }
    }

    /** Only hop `at` was touched: the others look as before. */
    twostate lemma OthersStay(at: nat)
      requires Apart() && at < MAX_HOST
      requires forall o :: o in Parts() && o != hops[at] && o != hops[at].stats && o != hops[at].history ==> unchanged(o)
      ensures forall k :: 0 <= k < |hops| && k != at ==> hops[k].View() == old(hops[k].View())
    {
      forall i | 0 <= i < MAX_HOST && i != at ensures hops[i].View() == old(hops[i].View()) {
        assert hops[i] in Parts() && hops[i].stats in Parts() && hops[i].history in Parts();
      }
    }

    method Tick(now: real, draws: Draws) returns (out: seq<Command>)
      requires Valid()
      modifies this, seqs, Parts()
      ensures (View(), out) == OnTick(old(View()), now, draws) && Valid()
    {
      ghost var s := View();
      hide Shape, Views, EngineSpec.SendBatch, EngineSpec.EndTransit;
      out := [];
      if finished || paused {
        return;
      }
      if graceStart.Some? {
        if Since(now, graceStart.value) >= Secs(cfg.graceTime) {
          finished := true;
          Unmoved();
          EndTransit();
          out := [Finished];
        }
        return;
      }
      if nextSend.Some? && now < nextSend.value {
        return;
      }
      if numPing >= cfg.maxPing && (!cfg.interactive || cfg.forceMaxPing) {
        graceStart := Some(now);
        Unmoved();
        return;
      }
      var ended;
      out, ended := SendBatch(now, draws);
      label Sent:
      if ended {
        numPing := numPing + 1;
      }
      var dt := Secs(cfg.interval / Max(numhosts, 1) as real);
      nextSend := Some(now + dt);
      Unmoved@Sent();
    }

    // ----- Answers -----

    method RecordReply(at: nat, r: ReplyInfo) returns (isNew: bool)
      requires Apart() && at < MAX_HOST && Views()[at].stats.rtts.returned >= 0
      modifies Parts()
      ensures Views() == old(Views())[at := HopAfterReply(old(Views())[at], r)]
      ensures isNew == IsNewResponder(old(Views())[at].addrs, r.from)
    {
      hide HopAfterReply, IsNewResponder;
      isNew := hops[at].RecordReply(r);
      OnlyHop(at);
    }

    method RecordLost(at: nat, failure: Option<HopError>, savedSeq: int)
      requires Apart() && at < MAX_HOST
      modifies Parts()
      ensures Views() == old(Views())[at := match failure
                                            case Some(e) => HopAfterSendError(old(Views())[at], e, savedSeq)
                                            case None => HopAfterNoReply(old(Views())[at], savedSeq)]
    {
      hide HopAfterSendError, HopAfterNoReply;
      match failure {
        case Some(e) => hops[at].RecordSendError(e, savedSeq);
        case None => hops[at].RecordNoReply(savedSeq);
      }
      OnlyHop(at);
    }

    method OnReply(token: nat, kind: ResponseKind, now: real) returns (out: seq<Command>)
      requires Valid() && token < MAX_SEQUENCE && kind.Probe? && !paused
      modifies seqs, Parts()
      ensures (View(), out) == OnAnswer(old(View()), token, kind, now) && Valid()
    {
      ghost var s := View();
      hide Shape, Views, HopAfterReply, IsNewResponder;
      out := [];
      var slot := seqs[token];
      if !slot.transit {
        return;
      }
      ShapeAt(s, slot.hop);
      SetSlot(token, slot.(transit := false));
      Unmoved();
      var err := match kind.result case NoRouteHost => Some(ErrNoRouteHost) case _ => None;
      var overwrite := if cfg.dueTtl > 0 && kind.addr == target then cfg.dueTtl <= slot.hop + 1 else true;
      var isNew := RecordReply(slot.hop, ReplyInfo(slot.savedSeq, kind.addr, kind.rtt, kind.mpls, kind.result, err, now,
                                                   overwrite, cfg.cacheTimeout.Some?));
      if isNew {
        out := [Resolve(kind.addr)];
      }
    }

    /** A terminal send failure: the token is no longer in transit, the error is pinned on the hop. */
    method RecordProbeFailure(token: nat, err: HopError)
      requires Valid() && token < MAX_SEQUENCE
      modifies seqs, Parts()
      ensures var s, slot := old(View()), old(seqs[token]);
              View() == if !slot.transit then s
                        else s.(seqs := s.seqs[token := slot.(transit := false)],
                                hops := s.hops[slot.hop := HopAfterSendError(s.hops[slot.hop], err, slot.savedSeq)])
    {
      hide Shape, Views, HopAfterSendError;
      var slot := seqs[token];
      if slot.transit {
        SetSlot(token, slot.(transit := false));
        Unmoved();
        RecordLost(slot.hop, Some(err), slot.savedSeq);
      }
    }

    method OnProbe(token: int, kind: ResponseKind, now: real) returns (out: seq<Command>)
      requires Valid()
      modifies seqs, Parts()
      ensures (View(), out) == OnAnswer(old(View()), token, kind, now) && Valid()
    {
      ghost var s := View();
      hide Shape, Views, HopAfterSendError, HopAfterNoReply, HopAfterReply;
      ShapeAt(s, 0);
      out := [];
      if token < 0 || token >= MAX_SEQUENCE || paused {
        return;
      }
      match kind {
        case Probe(_, _, _, _) =>
          out := OnReply(token, kind, now);
        case Bare(NoReply) =>
          var slot := seqs[token];
          if slot.transit {
            RecordLost(slot.hop, None, slot.savedSeq);
          }
        case Bare(NetworkDown) => RecordProbeFailure(token, ErrNetworkDown);
        case Bare(HostDown) => RecordProbeFailure(token, ErrHostDown);
        case Bare(NoRouteNetwork) => RecordProbeFailure(token, ErrNoRouteNetwork);
        case Bare(NoRoute) => RecordProbeFailure(token, ErrNoRouteHost);
        case _ =>
      }
    }

    // ----- User actions -----

    method ResetHops()
      requires Apart() && forall h :: 0 <= h < MAX_HOST ==> Views()[h].history.capacity == HISTORY_LEN
      modifies Parts()
      ensures Views() == seq(MAX_HOST, _ => NewHop(HISTORY_LEN))
    {
      var i := 0;
      while i < |hops|
        invariant i <= |hops|
        invariant forall k :: 0 <= k < i ==> hops[k].View() == NewHop(HISTORY_LEN)
        invariant forall k :: i <= k < |hops| ==> hops[k].View() == old(hops[k].View())
      {
        assert hops[i].View() == old(Views())[i];
        label Before:
        hops[i].Reset();
        OthersStay@Before(i);
        i := i + 1;
      }
    }

    method ClearSlots()
      requires Apart()
      modifies seqs
      ensures seqs[..] == ClearTransit(old(seqs[..]))
    {
      for i := 0 to seqs.Length
        invariant forall k :: 0 <= k < i ==> seqs[k] == old(seqs[k]).(transit := false)
        invariant forall k :: i <= k < seqs.Length ==> seqs[k] == old(seqs[k])
      {
        seqs[i] := seqs[i].(transit := false);
      }
    }

    method Reset()
      requires Valid()
      modifies this, seqs, Parts()
      ensures View() == OnReset(old(View())) && Valid()
    {
      ghost var s := View();
      hide Views, NewHop, ClearTransit;
      ResetHops();
      label Cleared:
      ClearSlots();
      batchAt := MinHop(cfg);
      numhosts := DEFAULT_NUMHOSTS;
      Unmoved@Cleared();
      hide Shape;
      assert View() == OnReset(s);
    }

    /** The actions that only change settings. */
    method Configure(a: UserAction)
      modifies `cfg
      ensures cfg == Reconfigure(old(cfg), a)
    {
      match a {
        case ToggleDns => cfg := cfg.(dns := !cfg.dns);
        case ToggleMpls => cfg := cfg.(showMpls := !cfg.showMpls);
        case ToggleAsn => cfg := cfg.(ipinfoFields := if cfg.ipinfoFields == [] then [0] else []);
        case SetInterval(ms) => cfg := cfg.(interval := Max(ms, 1) as real / 1000.0);
        case SetPacketSize(n) => cfg := cfg.(packetSize := n);
        case SetBitPattern(n) => cfg := cfg.(bitPattern := n);
        case SetTos(t) => cfg := cfg.(tos := t);
        case SetFirstTtl(t) => cfg := cfg.(firstTtl := ClampTtl(t, cfg.maxTtl));
        case SetMaxTtl(t) => cfg := cfg.(maxTtl := Max(t, Max(cfg.firstTtl, 1)));
        case CycleProtocol => cfg := cfg.(protocol := NextProtocol(cfg.protocol));
        case SetFields(f) => cfg := cfg.(fields := f);
        case _ =>
      }
    }

    method OnAction(a: UserAction)
      requires Valid()
      modifies this, seqs, Parts()
      ensures View() == EngineSpec.OnAction(old(View()), a) && Valid()
    {
      ghost var s := View();
      hide Shape, Views, OnReset, Reconfigure;
      if !a.SetFirstTtl? {
        SettingsKeepShape(s, a);
      }
      Configure(a);
      Unmoved();
      if a == UserAction.Pause {
        paused := true;
      } else if a == UserAction.Resume {
        paused := false;
      } else if a == UserAction.Reset || a == UserAction.CycleProtocol {
        Reset();
      } else if a.SetFirstTtl? {
        batchAt := Max(batchAt, MinHop(cfg));
      }
      assert View() == EngineSpec.OnAction(s, a);
    }

    // ----- Events -----

    function NextWake(now: real): (t: Option<real>)
      reads this, seqs, Parts()
      ensures t == Wake(View(), now)
    {
      if finished || paused then None
      else if graceStart.Some? then Some(graceStart.value + Secs(cfg.graceTime))
      else Some(if nextSend.Some? then nextSend.value else now)
    }

    /** The state machine: what the specification says, done in place. */
    method Handle(ev: Event, now: real, draws: Draws) returns (out: seq<Command>)
      requires Valid()
      modifies this, seqs, Parts()
      ensures (View(), out) == EngineSpec.Handle(old(View()), ev, now, draws) && Valid()
    {
      hide Shape, Views, OnTick, OnAnswer, EngineSpec.OnAction;
      out := [];
      match ev {
        case Tick => out := Tick(now, draws);
        case Answer(token, kind) => out := OnProbe(token, kind, now);
        case Action(a) => OnAction(a);
      }
      var t := NextWake(now);
      out := out + (match t case Some(at) => [Command.NextWake(at)] case None => []);
    }

    // ----- What is shown -----

    /** Where the displayed path ends: with the first hop that shows the target or an error; without
        one, with the hop behind the last that answered. */
    method MaxHop() returns (max: nat)
      requires Valid()
      ensures max <= cfg.maxTtl
      ensures forall k :: 0 <= k < max - 1 ==> Views()[k].addr != Some(target) && Views()[k].err.None?
      ensures (exists at :: 0 <= at < cfg.maxTtl && EndsPath(Views()[at], target)) ==>
                && 0 < max && EndsPath(Views()[max - 1], target)
                && forall k :: 0 <= k < max - 1 ==> !EndsPath(Views()[k], target)
      ensures !(exists at :: 0 <= at < cfg.maxTtl && EndsPath(Views()[at], target)) ==>
                && (max == 0
                    || exists at :: 0 <= at < cfg.maxTtl && Views()[at].addr.Some? && max == Min(at + 2, cfg.maxTtl))
                && (forall at :: 0 <= at < cfg.maxTtl && Views()[at].addr.Some? ==> Min(at + 2, cfg.maxTtl) <= max)
    {
      var n := Min(cfg.maxTtl, MAX_HOST);
      max := 0;
      for at := 0 to n
        invariant forall k :: 0 <= k < at ==> !EndsPath(Views()[k], target)
        invariant max == 0 || (2 <= max <= at + 1 && Views()[max - 2].addr.Some?)
        invariant forall k :: 0 <= k < at && Views()[k].addr.Some? ==> k + 2 <= max
      {
        assert Views()[at] == hops[at].View();
        if hops[at].addr == Some(target) || hops[at].err.Some? {
          assert EndsPath(Views()[at], target);
          return at + 1;
        }
        if hops[at].addr.Some? {
          max := at + 2;
        }
      }
      max := Min(max, n);
    }

    /** The hops shown are a range that starts at the first configured hop and never runs backwards. */
    method DisplayRange() returns (lo: nat, hi: nat)
      requires Valid()
      ensures lo == MinHop(cfg) && lo <= hi && (hi <= cfg.maxTtl || hi == lo)
      ensures forall at | lo <= at < cfg.maxTtl && Views()[at].addr.Some? ::
                at < hi || exists k :: 0 <= k < at && EndsPath(Views()[k], target)
    {
      lo := MinHop(cfg);
      var max := MaxHop();
      hi := Max(max, lo);
    }
  }
}
