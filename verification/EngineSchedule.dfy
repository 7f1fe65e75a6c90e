// Scheduling: when the engine acts, which hop it probes, and why a run with a cycle count ends.
module EngineSchedule {
  import opened Common
  import opened Requests
  import opened Mpls
  import opened Responses
  import opened Stats
  import opened Histories
  import opened Hops
  import opened EngineSpec
  import opened EngineJournal

  /** One event sends at most one probe; it goes to the batch hop, with a TTL of 1 .. 255. */
  lemma AtMostOneProbe(s: State, ev: Event, now: real, draws: Draws)
    requires Shape(s)
    ensures var out := Handle(s, ev, now, draws).1;
            && (forall k :: 0 <= k < |out| && out[k].SendProbe? ==>
                              && k == 0 && ev == Tick && out[0].token == s.nextSequence
                              && out[0].params.ttl == Some(s.batchAt + 1)
                              && out[0].params.target == s.target)
  {
    hide HopAfterSend, BatchEnd, HopAfterReply, EndTransit;
  }

  /** A random packet size is at least the minimum and below the size asked for; a random pattern has
      the sign that marks it as random, and any low byte. */
  lemma DrawnProbeIsInRange(cfg: Config, draws: Draws)
    ensures cfg.packetSize < 0 ==> MIN_PACKET <= ChooseSize(cfg, draws) < Max(MIN_PACKET + 1, -cfg.packetSize)
    ensures cfg.packetSize >= 0 ==> ChooseSize(cfg, draws) == cfg.packetSize
    ensures cfg.bitPattern < 0 ==> -512 < ChoosePattern(cfg, draws) <= -256
                                   && (ChoosePattern(cfg, draws) + draws.pattern) % 256 == 0
    ensures cfg.bitPattern >= 0 ==> ChoosePattern(cfg, draws) == cfg.bitPattern
  {
    if cfg.packetSize < 0 && -cfg.packetSize > MIN_PACKET {
      assert 0 <= draws.size % (-cfg.packetSize - MIN_PACKET) < -cfg.packetSize - MIN_PACKET;
    }
    var q, r := draws.pattern / 256, draws.pattern % 256;
    assert draws.pattern == q * 256 + r && -(256 + r) + draws.pattern == (q - 1) * 256;
  }

  /** The draw decides which size it is: what is left of it by the width of the range. */
  lemma DrawDecidesSize(cfg: Config, draws: Draws) returns (q: nat)
    requires cfg.packetSize < -28
    ensures draws.size == q * (-cfg.packetSize - 28) + (ChooseSize(cfg, draws) - 28)
  {
    q := draws.size / (-cfg.packetSize - 28);
  }

  // ----- Wake-ups -----

  /** A tick before the announced wake-up changes nothing exactly when that wake-up was a deadline:
      the next send, or the end of a grace period that lasts. */
  lemma EarlyTickIsIdleIff(s: State, announced: real, now: real, draws: Draws)
    requires Shape(s) && Wake(s, announced).Some? && now < Wake(s, announced).value
    ensures OnTick(s, now, draws) == (s, []) <==>
            if s.graceStart.Some? then Secs(s.cfg.graceTime) > 0.0 else s.nextSend.Some?
  {
    hide SendBatch, EndTransit, Pace;
    var r := OnTick(s, now, draws);
    if s.graceStart.Some? {
      if Secs(s.cfg.graceTime) > 0.0 {
        assert Since(now, s.graceStart.value) < Secs(s.cfg.graceTime);
        assert r == (s, []);
      } else {
        assert r.0.finished && r.0 != s;
      }
    } else if s.nextSend.None? {
      assert (r.0.graceStart.Some? || r.0.nextSend.Some?) && r.0 != s;
    } else {
      assert r == (s, []);
    }
  }

  /** With a clock that does not run backwards an early tick is always idle once the engine has
      been ticked. */
  lemma EarlyTickIsIdle(s: State, announced: real, now: real, draws: Draws)
    requires Shape(s) && Wake(s, announced).Some? && now < Wake(s, announced).value
    requires s.graceStart.Some? ==> s.graceStart.value <= now
    requires s.graceStart.None? ==> s.nextSend.Some?
    ensures OnTick(s, now, draws) == (s, [])
  {
  }

  /** Something irrevocable happened. */
  predicate Progress(s: State, s': State) {
    || (!s.finished && s'.finished)
    || (s.graceStart.None? && s'.graceStart.Some?)
    || (s'.numPing == s.numPing + 1 && s'.batchAt == MinHop(s.cfg))
    || (s'.numPing == s.numPing && s'.batchAt == s.batchAt + 1)
  }

  /** A tick at or after the announced wake-up always makes progress. */
  lemma DueTickProgresses(s: State, announced: real, now: real, draws: Draws)
    requires Shape(s) && Wake(s, announced).Some? && Wake(s, announced).value <= now
    ensures Progress(s, OnTick(s, now, draws).0)
  {
    SendKeepsCourse(s, now, draws);
    hide BatchEnd, StartBatch, ProbeBatchHop, SentCommand, EndTransit, Pace;
  }

  // ----- The destination -----

  lemma SendKeepsAddresses(s: State, now: real, draws: Draws)
    requires Shape(s)
    ensures var s2 := ProbeBatchHop(StartBatch(s, draws), now);
            && s2.cfg == s.cfg && s2.target == s.target && s2.batchAt == s.batchAt
            && forall h :: 0 <= h < MAX_HOST ==> s2.hops[h].addr == s.hops[h].addr
  {
    hide AfterPush;
  }

  /** Once hop `t` shows the destination, one batch step brings the batch to at most `t`, from
      wherever it was; so later probes go no further than the destination. */
  lemma DestinationStopsTheBatch(s: State, t: nat, now: real, draws: Draws)
    requires Shape(s) && MinHop(s.cfg) <= t < MAX_HOST
    requires Shows(s.hops[t], s.target) && s.cfg.dueTtl <= t + 1
    ensures var s' := SendBatch(s, now, draws).0;
            s'.batchAt <= t && Shows(s'.hops[t], s'.target) && s'.cfg == s.cfg
  {
    SendKeepsAddresses(s, now, draws);
    hide StartBatch, ProbeBatchHop;
    var s2 := ProbeBatchHop(StartBatch(s, draws), now);
    DestinationEndsTheBatch(s2, t);
    hide BatchEnd, Shape;
  }

  lemma DestinationEndsTheBatch(s: State, t: nat)
    requires Shape(s) && MinHop(s.cfg) <= t < MAX_HOST && Shows(s.hops[t], s.target) && s.cfg.dueTtl <= t + 1
    ensures t <= s.batchAt ==> BatchEnd(s, s.batchAt).Some?
  {
    hide UnknownCount, TargetBefore;
    if t < s.batchAt {
      assert TargetBefore(s, MinHop(s.cfg), s.batchAt).Some?;
    }
  }

  /** Answers never move the batch. */
  lemma AnswersKeepTheBatch(s: State, token: int, kind: ResponseKind, now: real)
    requires Shape(s)
    ensures OnAnswer(s, token, kind, now).0
            == s.(hops := OnAnswer(s, token, kind, now).0.hops, seqs := OnAnswer(s, token, kind, now).0.seqs)
  {
    hide HopAfterReply, HopAfterSendError, HopAfterNoReply;
  }

  /** Over a run of any inputs, hop `t` shows the destination whenever a tick comes, and no change of
      the first TTL moves the start of a batch beyond `t`. */
  predicate ShowsThroughout(s: State, t: nat, inputs: seq<Input>)
    requires Shape(s) && t < MAX_HOST
    decreases |inputs|
  {
    inputs == []
    || (var i := inputs[0];
        var s' := Handle(s, i.ev, i.now, i.draws).0;
        && (i.ev.Tick? ==> Shows(s.hops[t], s.target))
        && MinHop(s'.cfg) <= t
        && ShowsThroughout(s', t, inputs[1..]))
  }

  lemma ActionKeepsBatchWithin(s: State, t: nat, a: UserAction)
    requires Shape(s) && s.batchAt <= t && MinHop(OnAction(s, a).cfg) <= t
    ensures OnAction(s, a).batchAt <= t && OnAction(s, a).cfg.dueTtl == s.cfg.dueTtl
  {
    hide Shape, NewHop, ClearTransit, NextProtocol, ClampTtl;
  }

  lemma TickKeepsBatchWithin(s: State, t: nat, now: real, draws: Draws)
    requires Shape(s) && MinHop(s.cfg) <= t < MAX_HOST && s.batchAt <= t
    requires Shows(s.hops[t], s.target) && s.cfg.dueTtl <= t + 1
    ensures OnTick(s, now, draws).0.batchAt <= t && OnTick(s, now, draws).0.cfg == s.cfg
  {
    hide SendBatch, EndTransit, Pace, Shape, Shows;
    DestinationStopsTheBatch(s, t, now, draws);
  }

  lemma EventKeepsBatchWithin(s: State, t: nat, i: Input)
    requires Shape(s) && MinHop(s.cfg) <= t < MAX_HOST && s.batchAt <= t
    requires (i.ev.Tick? ==> Shows(s.hops[t], s.target)) && s.cfg.dueTtl <= t + 1
    requires MinHop(Handle(s, i.ev, i.now, i.draws).0.cfg) <= t
    ensures var s' := Handle(s, i.ev, i.now, i.draws).0;
            s'.batchAt <= t && s'.cfg.dueTtl == s.cfg.dueTtl
  {
    hide OnTick, OnAnswer, OnAction, Shape, Shows, Wake, MinHop;
    match i.ev {
      case Tick => TickKeepsBatchWithin(s, t, i.now, i.draws);
      case Answer(token, kind) => AnswersKeepTheBatch(s, token, kind, i.now);
      case Action(a) => ActionKeepsBatchWithin(s, t, a);
    }
  }

  /** Once the batch is at or before the destination it stays there, over ticks, answers and user
      actions in any order, as long as hop `t` shows the destination whenever a tick comes and the
      first TTL stays at or before it: no probe goes further. */
  lemma {:induction false} BatchStaysWithinDestination(s: State, j: Journal, t: nat, inputs: seq<Input>)
    requires Shape(s) && MinHop(s.cfg) <= t < MAX_HOST && s.batchAt <= t && s.cfg.dueTtl <= t + 1
    requires ShowsThroughout(s, t, inputs)
    ensures RunFrom(s, j, inputs).0.batchAt <= t
    decreases |inputs|
  {
    if inputs != [] {
      hide Handle, Note, Shape, Shows, MinHop;
      var i := inputs[0];
      var (s', out) := Handle(s, i.ev, i.now, i.draws);
      EventKeepsBatchWithin(s, t, i);
      BatchStaysWithinDestination(s', Note(j, i.ev, i.now, out), t, inputs[1..]);
    }
  }

  // ----- Runs that end -----

  /** The settings of a report run: a cycle count, no cache, a proper TTL range. */
  predicate ReportRun(cfg: Config) {
    && (!cfg.interactive || cfg.forceMaxPing) && cfg.cacheTimeout.None?
    && 1 <= cfg.firstTtl <= cfg.maxTtl
  }

  function BatchLength(cfg: Config): nat
    requires ReportRun(cfg)
  {
    cfg.maxTtl - cfg.firstTtl + 1
  }

  /** Inside the configured range, and not paused. */
  predicate OnCourse(s: State) {
    && Shape(s) && ReportRun(s.cfg) && !s.paused
    && s.batchAt < s.cfg.maxTtl
    && s.numPing <= s.cfg.maxPing
    && (s.numPing == s.cfg.maxPing ==> s.batchAt == MinHop(s.cfg))
    && (s.graceStart.Some? || s.finished ==> s.numPing == s.cfg.maxPing)
    && (s.finished ==> s.graceStart.Some?)
  }

  function Batches(n: nat, length: nat): nat {
    if n == 0 then 0 else Batches(n - 1, length) + length
  }

  lemma {:induction false} BatchesIsProduct(n: nat, length: nat)
    ensures Batches(n, length) == n * length
  {
    if n > 0 {
      BatchesIsProduct(n - 1, length);
      assert n * length == (n - 1) * length + length;
    }
  }

  /** How many due ticks are left at most: the rest of this batch, the batches to come, the tick that
      starts the grace period and the tick that ends it. */
  function TicksLeft(s: State): nat
    requires OnCourse(s)
  {
    if s.finished then 0
    else if s.graceStart.Some? then 1
    else if s.numPing == s.cfg.maxPing then 2
    else Batches(s.cfg.maxPing - s.numPing - 1, BatchLength(s.cfg)) + (s.cfg.maxTtl - s.batchAt) + 2
  }

  /** Before the end of a batch is decided, sending changes none of what the course depends on. */
  lemma SendKeepsCourse(s: State, now: real, draws: Draws)
    requires Shape(s)
    ensures var s2 := ProbeBatchHop(StartBatch(s, draws), now);
            && s2.cfg == s.cfg && s2.batchAt == s.batchAt && s2.numPing == s.numPing && s2.paused == s.paused
            && s2.graceStart == s.graceStart && s2.finished == s.finished
  {
    hide HopAfterSend, CacheSkips, ChooseSize, ChoosePattern;
  }

  /** One batch step goes to the next hop inside the range, or back to the first one. */
  lemma BatchStep(s: State, now: real, draws: Draws)
    requires Shape(s) && s.batchAt < s.cfg.maxTtl
    ensures var (s', _, ended) := SendBatch(s, now, draws);
            && s'.cfg == s.cfg && s'.numPing == s.numPing && s'.paused == s.paused
            && s'.graceStart == s.graceStart && s'.finished == s.finished
            && if ended then s'.batchAt == MinHop(s.cfg) else s'.batchAt == s.batchAt + 1 < s.cfg.maxTtl
  {
    SendKeepsCourse(s, now, draws);
    hide StartBatch, ProbeBatchHop, UnknownCount, TargetBefore, SentCommand;
  }

  /** A due tick uses at least one of the remaining ticks up. */
  lemma DueTickCounts(s: State, now: real, draws: Draws)
    requires OnCourse(s) && !s.finished && Wake(s, now).value <= now
    ensures OnCourse(OnTick(s, now, draws).0)
    ensures TicksLeft(OnTick(s, now, draws).0) < TicksLeft(s)
    ensures OnTick(s, now, draws).0.cfg == s.cfg
  {
    hide SendBatch, EndTransit, Pace, Batches;
    if s.graceStart.None? && s.numPing < s.cfg.maxPing {
      BatchStep(s, now, draws);
      OneBatchFewer(s.cfg.maxPing - s.numPing - 1, BatchLength(s.cfg));
    }
  }

  lemma OneBatchFewer(n: nat, length: nat)
    ensures n > 0 ==> Batches(n, length) == Batches(n - 1, length) + length
  {
  }

  // ----- Send counts -----

  function SentTo(s: State, h: nat): int
    requires Shape(s) && h < MAX_HOST
  {
    s.hops[h].stats.xmit
  }

  /** The first hop has one probe per finished batch, one more once the running batch passed it; no
      hop has more than its predecessor; hops still ahead in this batch are behind by one. */
  ghost predicate Staircase(s: State)
    requires Shape(s)
  {
    var first := MinHop(s.cfg);
    && first < MAX_HOST
    && SentTo(s, first) == s.numPing + (if first < s.batchAt then 1 else 0)
    && (forall h :: first <= h < MAX_HOST - 1 ==> SentTo(s, h + 1) <= SentTo(s, h))
    && (forall h :: first <= h < s.batchAt ==> SentTo(s, s.batchAt) + 1 <= SentTo(s, h))
    && (forall h :: 0 <= h < first ==> SentTo(s, h) == 0)
  }

  lemma StaircaseBatch(s: State, s': State)
    requires Shape(s) && Shape(s') && Staircase(s) && s'.cfg == s.cfg && s.batchAt <= 254
    requires forall h :: 0 <= h < MAX_HOST ==> SentTo(s', h) == SentTo(s, h) + if h == s.batchAt then 1 else 0
    requires (s'.numPing == s.numPing + 1 && s'.batchAt == MinHop(s.cfg))
             || (s'.numPing == s.numPing && s'.batchAt == s.batchAt + 1)
    ensures Staircase(s')
  {
    var first := MinHop(s.cfg);
    forall h | first <= h < MAX_HOST - 1 ensures SentTo(s', h + 1) <= SentTo(s', h) {
      assert SentTo(s, h + 1) <= SentTo(s, h);
    }
    if s'.batchAt == s.batchAt + 1 {
      forall h | first <= h < s'.batchAt ensures SentTo(s', s'.batchAt) + 1 <= SentTo(s', h) {
        assert SentTo(s, s.batchAt + 1) <= SentTo(s, s.batchAt);
      }
    }
  }

  lemma UncachedHopIsProbed(s: State, now: real, draws: Draws)
    requires Shape(s) && s.cfg.cacheTimeout.None?
    ensures ProbeBatchHop(StartBatch(s, draws), now).hops
            == s.hops[s.batchAt := HopAfterSend(s.hops[s.batchAt], now)]
  {
    hide HopAfterSend, ChooseSize, ChoosePattern;
  }

  lemma SendCounts(s: State, now: real, draws: Draws)
    requires Shape(s) && s.cfg.cacheTimeout.None?
    ensures var s' := SendBatch(s, now, draws).0;
            forall h :: 0 <= h < MAX_HOST ==> SentTo(s', h) == SentTo(s, h) + if h == s.batchAt then 1 else 0
  {
    UncachedHopIsProbed(s, now, draws);
    hide BatchEnd, AfterPush, ProbeBatchHop, StartBatch, SentCommand;
    assert SendBatch(s, now, draws).0.hops == s.hops[s.batchAt := HopAfterSend(s.hops[s.batchAt], now)];
  }

  lemma TickKeepsStaircase(s: State, now: real, draws: Draws)
    requires OnCourse(s) && Staircase(s)
    ensures Staircase(OnTick(s, now, draws).0)
  {
    var s' := OnTick(s, now, draws).0;
    SendCounts(s, now, draws);
    hide Staircase, SendQuery, EndTransit, Pace, BatchEnd, PingParams;
    if s.finished || (s.graceStart.None? && s.nextSend.Some? && now < s.nextSend.value) {
    } else if s.graceStart.Some? {
      StaircaseSameCounts(s, s');
    } else if CyclesDone(s) {
      StaircaseSameCounts(s, s');
    } else {
      StaircaseBatch(s, s');
    }
  }

  lemma StaircaseSameCounts(s: State, s': State)
    requires Shape(s) && Shape(s') && Staircase(s)
    requires s'.cfg == s.cfg && s'.numPing == s.numPing && s'.batchAt == s.batchAt
    requires forall h :: 0 <= h < MAX_HOST ==> s'.hops[h].stats.xmit == s.hops[h].stats.xmit
    ensures Staircase(s')
  {
    forall h | 0 <= h < MAX_HOST ensures SentTo(s', h) == SentTo(s, h) {
    }
  }

  lemma AnswerKeepsCourse(s: State, token: int, kind: ResponseKind, now: real)
    requires OnCourse(s) && Staircase(s)
    ensures var s' := OnAnswer(s, token, kind, now).0;
            OnCourse(s') && Staircase(s') && TicksLeft(s') == TicksLeft(s) && s'.cfg == s.cfg
            && s'.finished == s.finished
  {
    AnswersKeepTheBatch(s, token, kind, now);
    var s' := OnAnswer(s, token, kind, now).0;
    forall h | 0 <= h < MAX_HOST ensures s'.hops[h].stats.xmit == s.hops[h].stats.xmit {
    }
    hide OnAnswer, Staircase;
    StaircaseSameCounts(s, s');
  }

  /** The driver of a report run: every tick comes at or after the wake-up announced before it, and
      any answers may come in between. */
  datatype Beat = Due(now: real, draws: Draws) | Heed(token: int, kind: ResponseKind, at: real)

  predicate InTime(s: State, b: Beat)
    requires Shape(s)
  {
    b.Due? && Wake(s, b.now).Some? ==> Wake(s, b.now).value <= b.now
  }

  function Play(s: State, b: Beat): (r: State)
    requires Shape(s)
    ensures Shape(r)
  {
    match b
    case Due(now, draws) => Handle(s, Tick, now, draws).0
    case Heed(token, kind, at) => Handle(s, Answer(token, kind), at, Draws(0, 0)).0
  }

  predicate Obedient(s: State, beats: seq<Beat>)
    requires Shape(s)
    decreases |beats|
  {
    beats == [] || (InTime(s, beats[0]) && Obedient(Play(s, beats[0]), beats[1..]))
  }

  function PlayAll(s: State, beats: seq<Beat>): (r: State)
    requires Shape(s)
    ensures Shape(r)
    decreases |beats|
  {
    if beats == [] then s else PlayAll(Play(s, beats[0]), beats[1..])
  }

  function DueCount(beats: seq<Beat>): nat {
    if beats == [] then 0 else (if beats[0].Due? then 1 else 0) + DueCount(beats[1..])
  }

  lemma BeatAdvances(s: State, b: Beat)
    requires OnCourse(s) && Staircase(s) && InTime(s, b)
    ensures var s' := Play(s, b);
            && OnCourse(s') && Staircase(s') && s'.cfg == s.cfg
            && (b.Due? && !s.finished ==> TicksLeft(s') < TicksLeft(s))
            && (s.finished ==> s'.finished) && TicksLeft(s') <= TicksLeft(s)
  {
    hide TicksLeft, OnCourse, Staircase, OnTick, OnAnswer;
    match b {
      case Due(now, draws) =>
        CourseFacts(s);
        TickKeepsStaircase(s, now, draws);
        if !s.finished {
          DueTickCounts(s, now, draws);
        } else {
          FinishedTickIsIdle(s, now, draws);
        }
      case Heed(token, kind, at) => AnswerKeepsCourse(s, token, kind, at);
    }
  }

  lemma CourseFacts(s: State)
    requires OnCourse(s)
    ensures Shape(s) && !s.paused
  {
  }

  lemma FinishedTickIsIdle(s: State, now: real, draws: Draws)
    requires Shape(s) && s.finished
    ensures OnTick(s, now, draws) == (s, [])
  {
  }

  lemma {:induction false} PlayAllAdvances(s: State, beats: seq<Beat>)
    requires OnCourse(s) && Staircase(s) && Obedient(s, beats)
    ensures var s' := PlayAll(s, beats);
            && OnCourse(s') && Staircase(s') && s'.cfg == s.cfg
            && (s'.finished || DueCount(beats) + TicksLeft(s') <= TicksLeft(s))
            && (s.finished ==> s'.finished)
    decreases |beats|
  {
    if beats != [] {
      hide TicksLeft, OnCourse, Staircase, Play, InTime;
      BeatAdvances(s, beats[0]);
      PlayAllAdvances(Play(s, beats[0]), beats[1..]);
    }
  }

  lemma InitIsOnCourse(cfg: Config, target: IpAddr, local: Option<IpAddr>)
    requires ReportRun(cfg)
    ensures var s := Init(cfg, target, local);
            && OnCourse(s) && Staircase(s)
            && TicksLeft(s) <= cfg.maxPing * BatchLength(cfg) + 2
  {
    BatchesIsProduct(cfg.maxPing, BatchLength(cfg));
    OneBatchFewer(cfg.maxPing, BatchLength(cfg));
  }

  lemma {:induction false} StaircaseDescends(s: State, h: nat, k: nat)
    requires Shape(s) && Staircase(s) && MinHop(s.cfg) <= h <= k < MAX_HOST
    ensures SentTo(s, k) <= SentTo(s, h)
    decreases k
  {
    if h < k {
      StaircaseDescends(s, h, k - 1);
      assert SentTo(s, (k - 1) + 1) <= SentTo(s, k - 1);
    }
  }

  /** How often a list of commands says that the run is over. */
  function Announcements(out: seq<Command>): nat {
    multiset(out)[Finished]
  }

  /** The event that finishes the run says so once; no other event says so. */
  lemma FinishedIsAnnounced(s: State, ev: Event, now: real, draws: Draws)
    requires Shape(s)
    ensures var (s', out) := Handle(s, ev, now, draws);
            && Announcements(out) == (if !s.finished && s'.finished then 1 else 0)
            && (s.finished ==> s'.finished)
  {
    hide OnTick, OnAnswer, OnAction, Shape;
    match ev {
      case Tick => TickAnnounces(s, now, draws);
      case Answer(token, kind) => AnswerAnnounces(s, token, kind, now);
      case Action(a) => ActionKeepsFinished(s, a);
    }
  }

  lemma TickAnnounces(s: State, now: real, draws: Draws)
    requires Shape(s)
    ensures var (s', out) := OnTick(s, now, draws);
            && Announcements(out) == (if !s.finished && s'.finished then 1 else 0)
            && (s.finished ==> s'.finished)
  {
    hide SendBatch, EndTransit, Pace, Shape;
    BatchCommands(s, now, draws);
  }

  lemma AnswerAnnounces(s: State, token: int, kind: ResponseKind, now: real)
    requires Shape(s)
    ensures var (s', out) := OnAnswer(s, token, kind, now);
            Announcements(out) == 0 && s'.finished == s.finished
  {
    AnswersKeepTheBatch(s, token, kind, now);
    hide HopAfterReply, HopAfterSendError, HopAfterNoReply, IsNewResponder, Shape;
  }

  lemma ActionKeepsFinished(s: State, a: UserAction)
    requires Shape(s)
    ensures OnAction(s, a).finished == s.finished
  {
    hide Reconfigure, Shape;
  }

  lemma BatchCommands(s: State, now: real, draws: Draws)
    requires Shape(s)
    ensures var (s', out, _) := SendBatch(s, now, draws);
            Finished !in out && s'.finished == s.finished
  {
    hide SendQuery, BatchEnd;
    var s1 := StartBatch(s, draws);
    assert ProbeBatchHop(s1, now).finished == s.finished by {
      SendKeepsFlags(s1, now);
    }
  }

  lemma SendKeepsFlags(s: State, now: real)
    requires Shape(s)
    ensures ProbeBatchHop(s, now).finished == s.finished
  {
    hide HopAfterSend;
  }

  function Said(s: State, b: Beat): seq<Command>
    requires Shape(s)
  {
    match b
    case Due(now, draws) => Handle(s, Tick, now, draws).1
    case Heed(token, kind, at) => Handle(s, Answer(token, kind), at, Draws(0, 0)).1
  }

  /** Everything the engine says while it plays. */
  function Commands(s: State, beats: seq<Beat>): seq<Command>
    requires Shape(s)
    decreases |beats|
  {
    if beats == [] then [] else Said(s, beats[0]) + Commands(Play(s, beats[0]), beats[1..])
  }

  lemma BeatAnnounces(s: State, b: Beat)
    requires Shape(s)
    ensures Announcements(Said(s, b)) == (if !s.finished && Play(s, b).finished then 1 else 0)
    ensures s.finished ==> Play(s, b).finished
  {
    hide Handle, Announcements;
    match b {
      case Due(now, draws) => FinishedIsAnnounced(s, Tick, now, draws);
      case Heed(token, kind, at) => FinishedIsAnnounced(s, Answer(token, kind), at, Draws(0, 0));
    }
  }

  lemma {:induction false} AnnouncedOnce(s: State, beats: seq<Beat>)
    requires Shape(s)
    ensures Announcements(Commands(s, beats)) == (if !s.finished && PlayAll(s, beats).finished then 1 else 0)
    ensures s.finished ==> PlayAll(s, beats).finished
    decreases |beats|
  {
    if beats != [] {
      hide Play, Said, Shape;
      BeatAnnounces(s, beats[0]);
      AnnouncedOnce(Play(s, beats[0]), beats[1..]);
    }
  }

  /** A report run of N cycles is over after at most N * (max_ttl - first_ttl + 1) + 2 due ticks,
      whatever answers arrive; then the first hop was probed exactly N times, no hop more often, and
      counts never rise along the path; and the end was announced exactly once. */
  lemma ReportRunsEnd(cfg: Config, target: IpAddr, local: Option<IpAddr>, beats: seq<Beat>)
    requires ReportRun(cfg) && Obedient(Init(cfg, target, local), beats)
    ensures var s := PlayAll(Init(cfg, target, local), beats);
            && (DueCount(beats) >= cfg.maxPing * BatchLength(cfg) + 2 ==> s.finished)
            && (s.finished ==>
                  && SentTo(s, cfg.firstTtl - 1) == cfg.maxPing
                  && (forall h :: 0 <= h < MAX_HOST ==> SentTo(s, h) <= cfg.maxPing)
                  && (forall h, k :: cfg.firstTtl - 1 <= h <= k < MAX_HOST ==> SentTo(s, k) <= SentTo(s, h)))
            && Announcements(Commands(Init(cfg, target, local), beats)) == (if s.finished then 1 else 0)
  {
    var s0 := Init(cfg, target, local);
    InitIsOnCourse(cfg, target, local);
    assert !s0.finished;
    AnnouncedOnce(s0, beats);
    hide Commands, Announcements;
    hide Init, PlayAll, Obedient, DueCount;
    PlayAllAdvances(s0, beats);
    var s := PlayAll(s0, beats);
    var first := cfg.firstTtl - 1;
    if s.finished {
      forall h, k | first <= h <= k < MAX_HOST ensures SentTo(s, k) <= SentTo(s, h) {
        StaircaseDescends(s, h, k);
      }
      forall h | 0 <= h < MAX_HOST ensures SentTo(s, h) <= cfg.maxPing {
        if h >= first {
          StaircaseDescends(s, first, h);
        }
      }
    } else {
      NotOverMeansTicksLeft(s);
    }
  }

  lemma NotOverMeansTicksLeft(s: State)
    requires OnCourse(s) && !s.finished
    ensures TicksLeft(s) >= 1
  {
  }
}
