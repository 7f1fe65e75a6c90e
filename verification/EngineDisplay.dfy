// What a hop shows. Beside the journal an observer notes who was probed, who answered and what
// failed; in every reachable state a hop's address, labels, error, flags and responders are what
// those notes say.
module EngineDisplay {
  import opened Common
  import opened Requests
  import opened Mpls
  import opened Responses
  import opened Stats
  import opened Histories
  import opened Hops
  import opened EngineSpec
  import opened EngineJournal

  datatype HopNote =
    | Probed(hop: nat)
    | Replied(hop: nat, from: IpAddr, rtt: u32, result: ProbeResult, mpls: seq<MplsLabel>, at: real)
    | Failed(hop: nat, err: HopError)
    | Ended

  predicate Concerns(n: HopNote, h: nat) {
    !n.Ended? && n.hop == h
  }

  // ----- Reading the notes -----

  /** The target is not shown before the due TTL; everybody else always is. */
  predicate MayShow(from: IpAddr, h: nat, due: nat, target: IpAddr) {
    from != target || due <= h + 1
  }

  /** The sender of the last reply that may be shown. */
  function AddressShown(notes: seq<HopNote>, h: nat, due: nat, target: IpAddr): Option<IpAddr> {
    if notes == [] then None
    else
      var n, before := notes[|notes| - 1], notes[..|notes| - 1];
      if n.Replied? && n.hop == h && MayShow(n.from, h, due, target) then Some(n.from)
      else AddressShown(before, h, due, target)
  }

  /** The labels that came with the reply that last changed the address. */
  function LabelsShown(notes: seq<HopNote>, h: nat, due: nat, target: IpAddr): seq<MplsLabel> {
    if notes == [] then []
    else
      var n, before := notes[|notes| - 1], notes[..|notes| - 1];
      if AddressShown(notes, h, due, target) != AddressShown(before, h, due, target) then
        (if n.Replied? then n.mpls else [])
      else LabelsShown(before, h, due, target)
  }

  /** What the last answer said: `no-route-host`, a failure, or nothing wrong. */
  function ErrorShown(notes: seq<HopNote>, h: nat): Option<HopError> {
    if notes == [] then None
    else
      var n, before := notes[|notes| - 1], notes[..|notes| - 1];
      if n.Replied? && n.hop == h then (if n.result.NoRouteHost? then Some(ErrNoRouteHost) else None)
      else if n.Failed? && n.hop == h then Some(n.err)
      else ErrorShown(before, h)
  }

  /** The last thing that happened to the hop is a probe. */
  predicate IsOutstanding(notes: seq<HopNote>, h: nat) {
    notes != []
    && var n := notes[|notes| - 1];
       if Concerns(n, h) then n.Probed? else IsOutstanding(notes[..|notes| - 1], h)
  }

  /** As above, but the end of a run ends every flight. */
  predicate IsFlying(notes: seq<HopNote>, h: nat) {
    notes != []
    && var n := notes[|notes| - 1];
       !n.Ended? && if n.hop == h then n.Probed? else IsFlying(notes[..|notes| - 1], h)
  }

  /** It replied, and since then was not probed again with a probe unanswered. */
  predicate IsUp(notes: seq<HopNote>, h: nat) {
    notes != []
    && var n, before := notes[|notes| - 1], notes[..|notes| - 1];
       if n.Replied? && n.hop == h then true
       else IsUp(before, h) && !(n.Probed? && n.hop == h && IsOutstanding(before, h))
  }

  function LastHeard(notes: seq<HopNote>, h: nat): Option<real> {
    if notes == [] then None
    else
      var n := notes[|notes| - 1];
      if n.Replied? && n.hop == h then Some(n.at) else LastHeard(notes[..|notes| - 1], h)
  }

  /** Everything heard from one sender at one hop: its first labels and time, its last time and RTT,
      and how often. */
  function HeardFrom(notes: seq<HopNote>, h: nat, from: IpAddr): Option<HopAddr> {
    if notes == [] then None
    else
      var n, before := notes[|notes| - 1], HeardFrom(notes[..|notes| - 1], h, from);
      if n.Replied? && n.hop == h && n.from == from then
        match before
        case None => Some(HopAddr(from, n.mpls, n.at, n.at, 1, n.rtt))
        case Some(a) => Some(HopAddr(from, a.mpls, a.firstSeen, n.at, a.count + 1, n.rtt))
      else before
  }

  // ----- Keeping the notes -----

  /** The four failures that end a probe. */
  function FailureSaid(kind: ResponseKind): Option<HopError> {
    if kind == Bare(NetworkDown) then Some(ErrNetworkDown)
    else if kind == Bare(HostDown) then Some(ErrHostDown)
    else if kind == Bare(NoRouteNetwork) then Some(ErrNoRouteNetwork)
    else if kind == Bare(NoRoute) then Some(ErrNoRouteHost)
    else None
  }

  /** What an answer is worth noting: nothing, unless the journal has an open probe under its token. */
  function AnswerNotes(j: Journal, token: int, kind: ResponseKind, now: real): seq<HopNote> {
    var l := LatestUnder(j.sends, token);
    if j.paused || l.None? || !j.sends[l.value].open then []
    else if kind.Probe? then [Replied(j.sends[l.value].hop, kind.addr, kind.rtt, kind.result, kind.mpls, now)]
    else if FailureSaid(kind).Some? then [Failed(j.sends[l.value].hop, FailureSaid(kind).value)]
    else []
  }

  function TickNotes(out: seq<Command>): seq<HopNote> {
    if out == [] then []
    else if out[0].SendProbe? && out[0].params.ttl.Some? && out[0].params.ttl.value > 0 then
      [Probed(out[0].params.ttl.value - 1)]
    else if out[0].Finished? then [Ended]
    else []
  }

  function NoteShown(notes: seq<HopNote>, j: Journal, ev: Event, now: real, out: seq<Command>): seq<HopNote> {
    match ev
    case Tick => notes + TickNotes(out)
    case Answer(token, kind) => notes + AnswerNotes(j, token, kind, now)
    case Action(a) => if a in {Reset, CycleProtocol} then [] else notes
  }

  // ----- Agreement -----

  ghost predicate RespondersShown(notes: seq<HopNote>, addrs: seq<HopAddr>, h: nat) {
    && (forall i :: 0 <= i < |addrs| ==> HeardFrom(notes, h, addrs[i].addr) == Some(addrs[i]))
    && (forall from :: HeardFrom(notes, h, from).Some? ==> FindAddr(addrs, from).Some? || |addrs| >= MAX_PATH)
  }

  ghost predicate Shown(notes: seq<HopNote>, hop: HopState, h: nat, due: nat, target: IpAddr, cache: bool) {
    && hop.addr == AddressShown(notes, h, due, target)
    && hop.mpls == LabelsShown(notes, h, due, target)
    && hop.err == ErrorShown(notes, h)
    && hop.outstanding == IsOutstanding(notes, h)
    && hop.up == IsUp(notes, h)
    && hop.seen == (if cache then LastHeard(notes, h) else None)
    && hop.stats.transit == (if IsFlying(notes, h) then 1 else 0)
    && RespondersShown(notes, hop.addrs, h)
  }

  ghost predicate AllShown(notes: seq<HopNote>, s: State)
    requires Shape(s)
  {
    forall h :: 0 <= h < MAX_HOST ==> Shown(notes, s.hops[h], h, s.cfg.dueTtl, s.target, s.cfg.cacheTimeout.Some?)
  }

  lemma NewHopShown(h: nat, due: nat, target: IpAddr, cache: bool)
    ensures Shown([], NewHop(HISTORY_LEN), h, due, target, cache)
  {
  }

  /** A note about another hop changes nothing here. */
  lemma OtherHopShown(notes: seq<HopNote>, n: HopNote, hop: HopState, h: nat, due: nat, target: IpAddr, cache: bool)
    requires Shown(notes, hop, h, due, target, cache) && !n.Ended? && n.hop != h
    ensures Shown(notes + [n], hop, h, due, target, cache)
  {
    assert (notes + [n])[..|notes|] == notes;
    forall from ensures HeardFrom(notes + [n], h, from) == HeardFrom(notes, h, from) {
    }
  }

  lemma ProbedHopShown(notes: seq<HopNote>, hop: HopState, h: nat, due: nat, target: IpAddr, cache: bool, now: real)
    requires Shown(notes, hop, h, due, target, cache)
    ensures Shown(notes + [Probed(h)], HopAfterSend(hop, now), h, due, target, cache)
  {
    hide AfterPush, FindAddr;
    assert (notes + [Probed(h)])[..|notes|] == notes;
    forall from ensures HeardFrom(notes + [Probed(h)], h, from) == HeardFrom(notes, h, from) {
    }
  }

  lemma FailedHopShown(notes: seq<HopNote>, hop: HopState, h: nat, due: nat, target: IpAddr, cache: bool, e: HopError,
                       savedSeq: int)
    requires Shown(notes, hop, h, due, target, cache)
    ensures Shown(notes + [Failed(h, e)], HopAfterSendError(hop, e, savedSeq), h, due, target, cache)
  {
    hide AfterOutcome, FindAddr;
    assert (notes + [Failed(h, e)])[..|notes|] == notes;
    forall from ensures HeardFrom(notes + [Failed(h, e)], h, from) == HeardFrom(notes, h, from) {
    }
  }

  lemma EndedHopShown(notes: seq<HopNote>, hop: HopState, h: nat, due: nat, target: IpAddr, cache: bool)
    requires Shown(notes, hop, h, due, target, cache)
    ensures Shown(notes + [Ended], HopAfterEndTransit(hop), h, due, target, cache)
  {
    hide FindAddr;
    assert (notes + [Ended])[..|notes|] == notes;
    forall from ensures HeardFrom(notes + [Ended], h, from) == HeardFrom(notes, h, from) {
    }
  }

  /** What a reply does to the responders. */
  lemma RespondersAfterReply(notes: seq<HopNote>, addrs: seq<HopAddr>, h: nat, r: ReplyInfo)
    requires RespondersShown(notes, addrs, h) && DistinctResponders(addrs)
    ensures RespondersShown(notes + [Replied(h, r.from, r.rtt, r.result, r.mpls, r.now)], AfterResponder(addrs, r), h)
  {
    var n := Replied(h, r.from, r.rtt, r.result, r.mpls, r.now);
    var notes', addrs' := notes + [n], AfterResponder(addrs, r);
    assert notes'[..|notes|] == notes;
    assert forall from :: from != r.from ==> HeardFrom(notes', h, from) == HeardFrom(notes, h, from);
    forall i | 0 <= i < |addrs'| ensures HeardFrom(notes', h, addrs'[i].addr) == Some(addrs'[i]) {
      if i < |addrs| {
        assert HeardFrom(notes, h, addrs[i].addr) == Some(addrs[i]);
      }
    }
    forall from | HeardFrom(notes', h, from).Some? ensures FindAddr(addrs', from).Some? || |addrs'| >= MAX_PATH {
      if from != r.from && FindAddr(addrs, from).Some? {
        var i := FindAddr(addrs, from).value;
        assert addrs'[i].addr == from;
      } else if from == r.from && |addrs'| < MAX_PATH {
        assert exists i :: 0 <= i < |addrs'| && addrs'[i].addr == from by {
          assert addrs'[match FindAddr(addrs, from) case Some(i) => i case None => |addrs|].addr == from;
        }
      }
    }
  }

  lemma RepliedHopShown(notes: seq<HopNote>, hop: HopState, h: nat, due: nat, target: IpAddr, r: ReplyInfo)
    requires Shown(notes, hop, h, due, target, r.cache)
    requires DistinctResponders(hop.addrs) && hop.stats.rtts.returned >= 0
    requires r.overwriteAddr == MayShow(r.from, h, due, target)
    requires r.err == if r.result.NoRouteHost? then Some(ErrNoRouteHost) else None
    ensures Shown(notes + [Replied(h, r.from, r.rtt, r.result, r.mpls, r.now)], HopAfterReply(hop, r), h, due, target,
                  r.cache)
  {
    RespondersAfterReply(notes, hop.addrs, h, r);
    hide AfterOutcome, AfterRtt, FindAddr, AfterResponder, RespondersShown;
    var n := Replied(h, r.from, r.rtt, r.result, r.mpls, r.now);
    assert (notes + [n])[..|notes|] == notes;
  }

  // ----- One event -----

  lemma ReplyShown(notes: seq<HopNote>, j: Journal, s: State, token: int, kind: ResponseKind, now: real)
    requires Shape(s) && Agrees(j, s) && AllShown(notes, s) && KnownToken(token)
    requires !s.paused && s.seqs[token].transit && kind.Probe?
    ensures AllShown(notes + AnswerNotes(j, token, kind, now), OnAnswer(s, token, kind, now).0)
  {
    SlotOfAnswer(j, s, token);
    var at := s.seqs[token].hop;
    var r := ReplyFor(s, s.seqs[token], kind, now);
    var n := Replied(at, kind.addr, kind.rtt, kind.result, kind.mpls, now);
    assert Shown(notes, s.hops[at], at, s.cfg.dueTtl, s.target, s.cfg.cacheTimeout.Some?);
    RepliedHopShown(notes, s.hops[at], at, s.cfg.dueTtl, s.target, r);
    assert AnswerNotes(j, token, kind, now) == [n];
    OthersShown(notes, n, s, at);
    hide Shown, HopAfterReply, Agrees, LatestUnder, HopAgrees, ReplyFor;
  }

  lemma OthersShown(notes: seq<HopNote>, n: HopNote, s: State, at: nat)
    requires Shape(s) && AllShown(notes, s) && !n.Ended? && n.hop == at
    ensures forall h :: 0 <= h < MAX_HOST && h != at ==>
                          Shown(notes + [n], s.hops[h], h, s.cfg.dueTtl, s.target, s.cfg.cacheTimeout.Some?)
  {
    hide Shown;
    forall h | 0 <= h < MAX_HOST && h != at
      ensures Shown(notes + [n], s.hops[h], h, s.cfg.dueTtl, s.target, s.cfg.cacheTimeout.Some?)
    {
      OtherHopShown(notes, n, s.hops[h], h, s.cfg.dueTtl, s.target, s.cfg.cacheTimeout.Some?);
    }
  }

  lemma FailureHitsItsHop(s: State, token: int, kind: ResponseKind, now: real)
    requires Shape(s) && KnownToken(token) && !s.paused && s.seqs[token].transit && FailureSaid(kind).Some?
    ensures var slot := s.seqs[token];
            var s' := OnAnswer(s, token, kind, now).0;
            && s'.cfg == s.cfg && s'.target == s.target
            && s'.hops == s.hops[slot.hop := HopAfterSendError(s.hops[slot.hop], FailureSaid(kind).value, slot.savedSeq)]
  {
    hide HopAfterSendError;
  }

  lemma FailureShown(notes: seq<HopNote>, j: Journal, s: State, token: int, kind: ResponseKind, now: real)
    requires Shape(s) && Agrees(j, s) && AllShown(notes, s) && KnownToken(token)
    requires !s.paused && s.seqs[token].transit && FailureSaid(kind).Some?
    ensures AllShown(notes + AnswerNotes(j, token, kind, now), OnAnswer(s, token, kind, now).0)
  {
    hide Agrees, AllShown, OnAnswer, AnswerNotes, FailureSaid, HopAfterSendError;
    FailureHitsItsHop(s, token, kind, now);
    FailureIsNoted(j, s, token, kind, now);
    FailedAtHopShown(notes, s, OnAnswer(s, token, kind, now).0, s.seqs[token].hop, FailureSaid(kind).value,
                     s.seqs[token].savedSeq);
  }

  lemma FailureIsNoted(j: Journal, s: State, token: int, kind: ResponseKind, now: real)
    requires Shape(s) && Agrees(j, s) && KnownToken(token)
    requires !s.paused && s.seqs[token].transit && FailureSaid(kind).Some?
    ensures AnswerNotes(j, token, kind, now) == [Failed(s.seqs[token].hop, FailureSaid(kind).value)]
  {
    SlotOfAnswer(j, s, token);
    hide Agrees, LatestUnder, HopAgrees;
  }

  lemma FailedAtHopShown(notes: seq<HopNote>, s: State, s': State, at: nat, e: HopError, savedSeq: int)
    requires Shape(s) && Shape(s') && AllShown(notes, s) && at < MAX_HOST
    requires s'.cfg == s.cfg && s'.target == s.target
    requires s'.hops == s.hops[at := HopAfterSendError(s.hops[at], e, savedSeq)]
    ensures AllShown(notes + [Failed(at, e)], s')
  {
    hide Shown, HopAfterSendError;
    assert Shown(notes, s.hops[at], at, s.cfg.dueTtl, s.target, s.cfg.cacheTimeout.Some?);
    FailedHopShown(notes, s.hops[at], at, s.cfg.dueTtl, s.target, s.cfg.cacheTimeout.Some?, e, savedSeq);
    OthersShown(notes, Failed(at, e), s, at);
  }

  lemma SameHopsShown(notes: seq<HopNote>, s: State, s': State)
    requires Shape(s) && Shape(s') && AllShown(notes, s) && s'.target == s.target
    requires s'.cfg.dueTtl == s.cfg.dueTtl && s'.cfg.cacheTimeout == s.cfg.cacheTimeout
    requires forall h :: 0 <= h < MAX_HOST ==> s'.hops[h] == s.hops[h].(history := s'.hops[h].history)
    ensures AllShown(notes, s')
  {
    hide AddressShown, LabelsShown, ErrorShown, IsOutstanding, IsUp, LastHeard, IsFlying, RespondersShown;
    forall h | 0 <= h < MAX_HOST
      ensures Shown(notes, s'.hops[h], h, s'.cfg.dueTtl, s'.target, s'.cfg.cacheTimeout.Some?)
    {
      assert Shown(notes, s.hops[h], h, s.cfg.dueTtl, s.target, s.cfg.cacheTimeout.Some?);
      assert s'.hops[h] == s.hops[h].(history := s'.hops[h].history);
    }
  }

  lemma AnswerShown(notes: seq<HopNote>, j: Journal, s: State, token: int, kind: ResponseKind, now: real)
    requires Shape(s) && Agrees(j, s) && AllShown(notes, s)
    ensures AllShown(notes + AnswerNotes(j, token, kind, now), OnAnswer(s, token, kind, now).0)
  {
    hide Agrees, AllShown, OnAnswer, AnswerNotes;
    if KnownToken(token) && !s.paused && s.seqs[token].transit {
      if kind.Probe? {
        ReplyShown(notes, j, s, token, kind, now);
      } else if FailureSaid(kind).Some? {
        FailureShown(notes, j, s, token, kind, now);
      } else {
        OtherAnswerShown(notes, j, s, token, kind, now);
      }
    } else {
      SilentIfNotOpen(j, s, token, kind, now);
      assert notes + [] == notes;
    }
  }

  /** Timeouts, and answers that are none of the engine's business, show nowhere. */
  lemma OtherAnswerShown(notes: seq<HopNote>, j: Journal, s: State, token: int, kind: ResponseKind, now: real)
    requires Shape(s) && Agrees(j, s) && AllShown(notes, s) && !kind.Probe? && FailureSaid(kind).None?
    ensures AllShown(notes + AnswerNotes(j, token, kind, now), OnAnswer(s, token, kind, now).0)
  {
    hide Agrees, AllShown, LatestUnder, AfterOutcome, HopAfterReply, HopAfterSendError;
    assert AnswerNotes(j, token, kind, now) == [] && notes + [] == notes;
    SameHopsShown(notes, s, OnAnswer(s, token, kind, now).0);
  }

  lemma SilentIfNotOpen(j: Journal, s: State, token: int, kind: ResponseKind, now: real)
    requires Shape(s) && Agrees(j, s) && (!KnownToken(token) || s.paused || !s.seqs[token].transit)
    ensures AnswerNotes(j, token, kind, now) == [] && OnAnswer(s, token, kind, now) == (s, [])
  {
    if !KnownToken(token) {
      UnknownTokenIsNobodys(j, token);
    } else {
      SlotOfAnswer(j, s, token);
    }
  }

  lemma SendShown(notes: seq<HopNote>, s: State, at: nat, now: real)
    requires Shape(s) && AllShown(notes, s) && at < MAX_HOST
    ensures AllShown(notes + [Probed(at)], SendQuery(s, at, now))
  {
    assert Shown(notes, s.hops[at], at, s.cfg.dueTtl, s.target, s.cfg.cacheTimeout.Some?);
    ProbedHopShown(notes, s.hops[at], at, s.cfg.dueTtl, s.target, s.cfg.cacheTimeout.Some?, now);
    OthersShown(notes, Probed(at), s, at);
    hide Shown, HopAfterSend;
  }

  lemma BatchShown(notes: seq<HopNote>, s: State, now: real, draws: Draws)
    requires Shape(s) && AllShown(notes, s)
    ensures var (s', out, _) := SendBatch(s, now, draws);
            && AllShown(notes + TickNotes(out), s')
            && |out| <= 1 && (out != [] ==> out[0].SendProbe?)
  {
    hide AllShown, BatchEnd, SendQuery, ChooseSize, ChoosePattern, CacheSkips, PingParams;
    var s1 := StartBatch(s, draws);
    var s2 := ProbeBatchHop(s1, now);
    SameHopsShown(notes, s, s1);
    if CacheSkips(s1, s1.batchAt, now) {
      assert notes + [] == notes;
      SameHopsShown(notes, s2, EndOrAdvance(s2).0);
    } else {
      SendShown(notes, s1, s1.batchAt, now);
      PingTtl(s1, s1.batchAt);
      SameHopsShown(notes + [Probed(s.batchAt)], s2, EndOrAdvance(s2).0);
    }
  }

  lemma EndShown(notes: seq<HopNote>, s: State)
    requires Shape(s) && AllShown(notes, s)
    ensures AllShown(notes + [Ended], s.(finished := true, hops := EndTransit(s.hops)))
  {
    var s' := s.(finished := true, hops := EndTransit(s.hops));
    hide Shown, HopAfterEndTransit;
    forall h | 0 <= h < MAX_HOST
      ensures Shown(notes + [Ended], s'.hops[h], h, s.cfg.dueTtl, s.target, s.cfg.cacheTimeout.Some?)
    {
      EndedHopShown(notes, s.hops[h], h, s.cfg.dueTtl, s.target, s.cfg.cacheTimeout.Some?);
    }
  }

  lemma TickShown(notes: seq<HopNote>, s: State, now: real, draws: Draws)
    requires Shape(s) && AllShown(notes, s)
    ensures var (s', out) := Handle(s, Tick, now, draws);
            AllShown(notes + TickNotes(out), s')
  {
    hide AllShown, SendBatch, EndTransit, Pace, Shape, Wake;
    var (s', cmds) := OnTick(s, now, draws);
    var (_, out) := Handle(s, Tick, now, draws);
    BatchShown(notes, s, now, draws);
    var (s1, sent, _) := SendBatch(s, now, draws);
    if s'.finished && !s.finished && s.graceStart.Some? {
      assert out[0] == Finished;
      EndShown(notes, s);
    } else if s.finished || s.paused || s.graceStart.Some? || (s.nextSend.Some? && now < s.nextSend.value) || CyclesDone(s) {
      assert TickNotes(out) == [];
      assert notes + [] == notes;
      SameHopsShown(notes, s, s');
    } else {
      assert cmds == sent && TickNotes(out) == TickNotes(sent);
      SameHopsShown(notes + TickNotes(sent), s1, s');
    }
  }

  lemma NewHopsShown(s: State)
    requires Shape(s) && forall h :: 0 <= h < MAX_HOST ==> s.hops[h] == NewHop(HISTORY_LEN)
    ensures AllShown([], s)
  {
    hide Shown, NewHop;
    forall h | 0 <= h < MAX_HOST
      ensures Shown([], s.hops[h], h, s.cfg.dueTtl, s.target, s.cfg.cacheTimeout.Some?)
    {
      NewHopShown(h, s.cfg.dueTtl, s.target, s.cfg.cacheTimeout.Some?);
    }
  }

  lemma ActionShown(notes: seq<HopNote>, s: State, a: UserAction)
    requires Shape(s) && AllShown(notes, s)
    ensures AllShown(if a in {Reset, CycleProtocol} then [] else notes, OnAction(s, a))
  {
    hide Shown, NewHop, ClearTransit, AllShown, NextProtocol, ClampTtl, MinHop;
    if a in {Reset, CycleProtocol} {
      NewHopsShown(OnAction(s, a));
    } else {
      SameHopsShown(notes, s, OnAction(s, a));
    }
  }

  /** One event keeps every hop showing what the notes say. */
  lemma HandleShown(notes: seq<HopNote>, j: Journal, s: State, ev: Event, now: real, draws: Draws)
    requires Shape(s) && Agrees(j, s) && AllShown(notes, s)
    ensures var (s', out) := Handle(s, ev, now, draws);
            AllShown(NoteShown(notes, j, ev, now, out), s')
  {
    hide Agrees, AllShown, AnswerNotes, TickNotes, OnTick, OnAnswer, OnAction;
    match ev {
      case Tick => TickShown(notes, s, now, draws);
      case Answer(token, kind) => AnswerShown(notes, j, s, token, kind, now);
      case Action(a) => ActionShown(notes, s, a);
    }
  }

  // ----- Whole runs -----

  function NotesFrom(s: State, j: Journal, notes: seq<HopNote>, inputs: seq<Input>): seq<HopNote>
    requires Shape(s)
    decreases |inputs|
  {
    if inputs == [] then notes
    else
      var i := inputs[0];
      var (s', out) := Handle(s, i.ev, i.now, i.draws);
      NotesFrom(s', Note(j, i.ev, i.now, out), NoteShown(notes, j, i.ev, i.now, out), inputs[1..])
  }

  lemma {:induction false} RunShown(s: State, j: Journal, notes: seq<HopNote>, inputs: seq<Input>)
    requires Shape(s) && Agrees(j, s) && AllShown(notes, s)
    ensures AllShown(NotesFrom(s, j, notes, inputs), RunFrom(s, j, inputs).0)
    decreases |inputs|
  {
    if inputs != [] {
      hide Agrees, AllShown, Handle, Note, NoteShown;
      var i := inputs[0];
      var (s', out) := Handle(s, i.ev, i.now, i.draws);
      HandleAgrees(j, s, i.ev, i.now, i.draws);
      HandleShown(notes, j, s, i.ev, i.now, i.draws);
      RunShown(s', Note(j, i.ev, i.now, out), NoteShown(notes, j, i.ev, i.now, out), inputs[1..]);
    }
  }

  /** Over every run from every configuration each hop shows what was noted about it since the last
      reset. */
  lemma EveryRunShows(cfg: Config, target: IpAddr, local: Option<IpAddr>, inputs: seq<Input>)
    ensures AllShown(NotesFrom(Init(cfg, target, local), BLANK, [], inputs), Reached(cfg, target, local, inputs).0)
  {
    InitAgrees(cfg, target, local);
    hide Agrees, AllShown;
    var s := Init(cfg, target, local);
    NewHopsShown(s);
    RunShown(s, BLANK, [], inputs);
  }

  // ----- One reply, spelled out -----

  /** After an accepted reply the hop shows its sender, unless that is the target before its due TTL;
      it takes the reply's labels exactly when its address changed, and an error exactly from
      `no-route-host`. */
  lemma ReplyShowsItsSender(s: State, token: int, kind: ResponseKind, now: real)
    requires Shape(s) && KnownToken(token) && !s.paused && s.seqs[token].transit && kind.Probe?
    ensures var at := s.seqs[token].hop;
            var before, after := s.hops[at], OnAnswer(s, token, kind, now).0.hops[at];
            var withheld := s.cfg.dueTtl > 0 && kind.addr == s.target && s.cfg.dueTtl > at + 1;
            && after.addr == (if withheld then before.addr else Some(kind.addr))
            && after.mpls == (if after.addr != before.addr then kind.mpls else before.mpls)
            && after.err == (if kind.result == NoRouteHost then Some(ErrNoRouteHost) else None)
            && after.up && !after.outstanding && after.stats.transit == 0
  {
    hide AfterOutcome, AfterRtt, AfterResponder;
  }

  /** What one answer, and one probe, writes into the history of its hop: the entry of the probe that is
      answered, if it is still kept, and nothing else; a new entry for the probe that is sent. */
  lemma AnswerWritesOneEntry(s: State, token: int, kind: ResponseKind, now: real, k: nat)
    requires Shape(s) && KnownToken(token) && !s.paused && s.seqs[token].transit
    requires k < |s.hops[s.seqs[token].hop].history.samples|
    ensures var slot := s.seqs[token];
            var before, after := s.hops[slot.hop].history, OnAnswer(s, token, kind, now).0.hops[slot.hop].history;
            && |after.samples| == |before.samples| && after.baseSeq == before.baseSeq
            && after.samples[k]
               == if k != slot.savedSeq - before.baseSeq then before.samples[k]
                  else
                    var e := before.samples[k];
                    if kind.Probe? then HistoryEntry(e.seqNo, e.sent, Rtt(kind.rtt), Some(kind.result), kind.mpls)
                    else if kind == Bare(NoReply) || FailureSaid(kind).Some?
                    then HistoryEntry(e.seqNo, e.sent, Lost, None, [])
                    else e
  {
    hide AfterRtt, AfterResponder;
  }

  lemma ProbeWritesOneEntry(s: State, at: nat, now: real)
    requires Shape(s) && at < MAX_HOST
    ensures var samples := SendQuery(s, at, now).hops[at].history.samples;
            samples != [] && samples[|samples| - 1]
                             == HistoryEntry(s.hops[at].stats.xmit + 1, now, Pending(now), None, [])
  {
  }

  /** A name is asked for exactly when the sender was never heard at that hop and is remembered now. */
  lemma ResolveIffNew(notes: seq<HopNote>, j: Journal, s: State, token: int, kind: ResponseKind, now: real)
    requires Shape(s) && Agrees(j, s) && AllShown(notes, s)
    requires KnownToken(token) && !s.paused && s.seqs[token].transit && kind.Probe?
    ensures var at := s.seqs[token].hop;
            OnAnswer(s, token, kind, now).1
            == if HeardFrom(notes, at, kind.addr).None? && |s.hops[at].addrs| < MAX_PATH then [Resolve(kind.addr)] else []
  {
    var at := s.seqs[token].hop;
    assert Shown(notes, s.hops[at], at, s.cfg.dueTtl, s.target, s.cfg.cacheTimeout.Some?);
    hide HopAfterReply, HeardFrom, Agrees, AddressShown, LabelsShown, ErrorShown, IsOutstanding, IsUp, LastHeard, IsFlying;
    var found := FindAddr(s.hops[at].addrs, kind.addr);
    assert found.Some? ==> HeardFrom(notes, at, s.hops[at].addrs[found.value].addr).Some?;
  }
}
