// What a batch does, said about hops, settings and time alone: when it ends and how long it was,
// which hops it skips, how probes are spaced, and what each setting changes.
module EngineBatch {
  import opened Common
  import opened Requests
  import opened Mpls
  import opened Responses
  import opened Stats
  import opened Histories
  import opened Hops
  import opened EngineSpec
  import opened EngineSchedule

  // ----- The end of a batch -----

  /** Hop `k` shows the target, no earlier than the due TTL. */
  predicate TargetAt(s: State, k: nat)
    requires k < |s.hops|
  {
    s.hops[k].addr == Some(s.target) && s.cfg.dueTtl <= k + 1
  }

  /** The hops from `first` below `at` that never answered, as far as the scan looks: up to the target. */
  function SilentHops(s: State, first: nat, at: nat): set<nat>
    requires at <= |s.hops|
  {
    set i: nat | first <= i < at && s.hops[i].addr.None? && (forall k :: first <= k < i ==> !TargetAt(s, k))
  }

  function SilentBelow(s: State, first: nat, end: nat): set<nat>
    requires end <= |s.hops|
  {
    set i: nat | first <= i < end && s.hops[i].addr.None?
  }

  lemma SilentFromNext(s: State, first: nat, end: nat)
    requires first < end <= |s.hops|
    ensures SilentBelow(s, first, end)
            == SilentBelow(s, first + 1, end) + if s.hops[first].addr.None? then {first} else {}
  {
  }

  lemma {:induction false} UnknownIsASet(s: State, first: nat, end: nat)
    requires first <= end <= |s.hops|
    ensures UnknownCount(s, first, end) == |SilentBelow(s, first, end)|
    decreases end - first
  {
    if first < end {
      UnknownIsASet(s, first + 1, end);
      SilentFromNext(s, first, end);
      assert first !in SilentBelow(s, first + 1, end);
      hide SilentBelow;
    } else {
      assert SilentBelow(s, first, end) == {};
    }
  }

  lemma ScanSeesSilentHops(s: State, first: nat, at: nat)
    requires first <= at <= |s.hops|
    ensures var hit := TargetBefore(s, first, at);
            UnknownCount(s, first, if hit.Some? then hit.value else at) == |SilentHops(s, first, at)|
  {
    var hit := TargetBefore(s, first, at);
    var end := if hit.Some? then hit.value else at;
    UnknownIsASet(s, first, end);
    assert forall k :: first <= k < end ==> !TargetAt(s, k);
    if hit.Some? {
      assert TargetAt(s, end);
    }
    assert SilentHops(s, first, at) == SilentBelow(s, first, end);
  }

  /** Why the batch is over at the hop just probed. */
  predicate OverHere(s: State, first: nat, at: nat)
    requires at < |s.hops|
  {
    || at + 1 >= s.cfg.maxTtl
    || (s.cfg.dueTtl <= at + 1
        && (s.hops[at].addr == Some(s.target) || |SilentHops(s, first, at)| > s.cfg.maxUnknown))
  }

  /** Hop `k` is the first before `at` that shows the target. */
  predicate FirstTarget(s: State, first: nat, at: nat, k: nat)
    requires at < |s.hops|
  {
    first <= k < at && TargetAt(s, k) && forall i :: first <= i < k ==> !TargetAt(s, i)
  }

  lemma BatchEndIs(s: State, at: nat)
    requires MinHop(s.cfg) <= at < |s.hops|
    ensures var first := MinHop(s.cfg);
            && (OverHere(s, first, at) ==> BatchEnd(s, at) == Some(at - first + 1))
            && (!OverHere(s, first, at) ==>
                  && (BatchEnd(s, at).Some? <==> exists k: nat :: FirstTarget(s, first, at, k))
                  && forall k: nat :: FirstTarget(s, first, at, k) ==> BatchEnd(s, at) == Some(k - first + 1))
  {
    var first := MinHop(s.cfg);
    ScanSeesSilentHops(s, first, at);
    hide UnknownCount, SilentHops, MinHop;
    var hit := TargetBefore(s, first, at);
    assert forall k :: first <= k < (if hit.Some? then hit.value else at) ==> !TargetAt(s, k);
    assert hit.Some? ==> FirstTarget(s, first, at, hit.value);
  }

  lemma SameAddressesEndAlike(s: State, s2: State, first: nat, at: nat)
    requires |s.hops| == |s2.hops| && at < |s.hops| && s2.cfg == s.cfg && s2.target == s.target
    requires forall h :: 0 <= h < |s.hops| ==> s2.hops[h].addr == s.hops[h].addr
    ensures OverHere(s2, first, at) == OverHere(s, first, at)
    ensures forall k: nat :: FirstTarget(s2, first, at, k) == FirstTarget(s, first, at, k)
  {
    assert forall k :: 0 <= k < |s.hops| ==> TargetAt(s2, k) == TargetAt(s, k);
    hide TargetAt;
    forall i: nat ensures i in SilentHops(s2, first, at) <==> i in SilentHops(s, first, at) {
      if first <= i < at {
        assert forall k :: first <= k < i ==> TargetAt(s2, k) == TargetAt(s, k);
      }
    }
    assert SilentHops(s2, first, at) == SilentHops(s, first, at);
  }

  /** A batch step ends the batch exactly when the last TTL is reached, or an earlier hop shows the
      target, or, from the due TTL on, this hop shows the target or more hops than allowed stayed
      silent. A batch that is over here counts all its hops as hosts, otherwise those up to the target. */
  lemma BatchEndsIff(s: State, now: real, draws: Draws)
    requires Shape(s)
    ensures var first, at := Max(s.cfg.firstTtl, 1) - 1, s.batchAt;
            var (s', _, ended) := SendBatch(s, now, draws);
            && (ended <==> OverHere(s, first, at) || exists k: nat :: FirstTarget(s, first, at, k))
            && (ended ==> s'.batchAt == first)
            && (OverHere(s, first, at) ==> s'.numhosts == at - first + 1)
            && (!OverHere(s, first, at) ==>
                  forall k: nat :: FirstTarget(s, first, at, k) ==> s'.numhosts == k - first + 1)
            && (!ended ==> s'.batchAt == at + 1 && s'.numhosts == s.numhosts)
  {
    SendKeepsAddresses(s, now, draws);
    SendKeepsHosts(s, now, draws);
    hide StartBatch, ProbeBatchHop, SentCommand, OverHere, FirstTarget;
    var s2 := ProbeBatchHop(StartBatch(s, draws), now);
    SameAddressesEndAlike(s, s2, MinHop(s.cfg), s.batchAt);
    BatchEndIs(s2, s.batchAt);
    hide BatchEnd;
  }

  lemma SendKeepsHosts(s: State, now: real, draws: Draws)
    requires Shape(s)
    ensures ProbeBatchHop(StartBatch(s, draws), now).numhosts == s.numhosts
  {
    hide HopAfterSend, ChooseSize, ChoosePattern, CacheSkips;
  }

  /** An instance: six hops that stay silent are one too many when five are allowed, long before the
      last TTL. */
  lemma SilentPathIsGivenUp(s: State, now: real, draws: Draws)
    requires Shape(s) && s.cfg.firstTtl == 1 && s.cfg.maxTtl == 30 && s.cfg.maxUnknown == 5 && s.cfg.dueTtl <= 1
    requires s.batchAt == 6 && forall h :: 0 <= h < MAX_HOST ==> s.hops[h].addr.None?
    ensures SendBatch(s, now, draws).2 && SendBatch(s, now, draws).0.numhosts == 7
  {
    BatchEndsIff(s, now, draws);
    hide SendBatch;
    SixAreSilent(s);
  }

  lemma SixAreSilent(s: State)
    requires |s.hops| == MAX_HOST && forall h :: 0 <= h < MAX_HOST ==> s.hops[h].addr.None?
    ensures |SilentHops(s, 0, 6)| == 6
  {
    assert forall k :: 0 <= k < 6 ==> !TargetAt(s, k);
    var six: set<nat> := {0, 1, 2, 3, 4, 5};
    assert SilentHops(s, 0, 6) == six;
    assert |six| == 6;
  }

  // ----- Cache, size and pace -----

  /** A hop is passed over exactly when the cache is on, the hop is up, and it answered within the
      cache time. */
  lemma CachedHopIsSkippedIff(s: State, now: real, draws: Draws)
    requires Shape(s)
    ensures var hop := s.hops[s.batchAt];
            var (s', out, _) := SendBatch(s, now, draws);
            && (out == [] <==> && s.cfg.cacheTimeout.Some? && hop.up && hop.seen.Some?
                               && (if now < hop.seen.value then 0.0 else now - hop.seen.value)
                                  <= s.cfg.cacheTimeout.value)
            && (out == [] ==> s'.hops == s.hops && s'.nextSequence == s.nextSequence)
  {
    hide BatchEnd, HopAfterSend, PingParams, ChooseSize, ChoosePattern;
  }

  /** Size and pattern are chosen when the first hop is probed and kept for the rest of the batch. */
  lemma BatchHasOneSize(s: State, now: real, draws: Draws)
    requires Shape(s) && s.cfg.firstTtl >= 1
    ensures var s' := SendBatch(s, now, draws).0;
            if s.batchAt == s.cfg.firstTtl - 1
            then s'.packetSize == ChooseSize(s.cfg, draws) && s'.bitPattern == ChoosePattern(s.cfg, draws)
            else s'.packetSize == s.packetSize && s'.bitPattern == s.bitPattern
  {
    hide BatchEnd, HopAfterSend, ChooseSize, ChoosePattern, CacheSkips;
  }

  /** As many gaps as there are hosts make up one interval; no gap at all for a non-positive one. */
  predicate Spreads(gap: real, hosts: nat, interval: real) {
    if interval > 0.0 then gap * hosts as real == interval else gap == 0.0
  }

  /** A tick that sends leaves so much time that as many such gaps as the batch has hosts make up one
      interval. */
  lemma GapsMakeAnInterval(s: State, now: real, draws: Draws)
    requires Shape(s) && !s.finished && !s.paused && s.graceStart.None? && !CyclesDone(s)
    requires s.nextSend.Some? ==> s.nextSend.value <= now
    ensures var s' := OnTick(s, now, draws).0;
            s'.nextSend.Some? && s'.numhosts >= 1 && Spreads(s'.nextSend.value - now, s'.numhosts, s.cfg.interval)
  {
    TickLeavesAGap(s, now, draws);
    hide OnTick, Pace, Shape, Spreads;
    var s' := OnTick(s, now, draws).0;
    PaceTimesHosts(s', s'.nextSend.value - now);
  }

  lemma TickLeavesAGap(s: State, now: real, draws: Draws)
    requires Shape(s) && !s.finished && !s.paused && s.graceStart.None? && !CyclesDone(s)
    requires s.nextSend.Some? ==> s.nextSend.value <= now
    ensures var s' := OnTick(s, now, draws).0;
            s'.cfg == s.cfg && s'.numhosts >= 1 && s'.nextSend == Some(now + Pace(s'))
  {
    SendKeepsCourse(s, now, draws);
    hide BatchEnd, StartBatch, ProbeBatchHop, SentCommand, Secs;
  }

  lemma PaceTimesHosts(s: State, gap: real)
    requires s.numhosts >= 1 && gap == Pace(s)
    ensures Spreads(gap, s.numhosts, s.cfg.interval)
  {
    assert Max(s.numhosts, 1) == s.numhosts;
    ShareOfInterval(s.cfg.interval, s.numhosts as real, gap);
  }

  lemma ShareOfInterval(interval: real, hosts: real, gap: real)
    requires hosts >= 1.0 && gap == Secs(interval / hosts)
    ensures interval >= 0.0 ==> gap * hosts == interval
    ensures interval <= 0.0 ==> gap == 0.0
  {
    var share := interval / hosts;
    QuotientTimes(interval, hosts);
    if interval > 0.0 && share <= 0.0 {
      SignOfProduct(-share, hosts);
    }
    if interval <= 0.0 && share > 0.0 {
      PositiveProduct(share, hosts);
    }
  }

  lemma QuotientTimes(a: real, b: real)
    requires b != 0.0
    ensures a / b * b == a
  {
  }

  lemma SignOfProduct(a: real, b: real)
    requires a >= 0.0 && b > 0.0
    ensures (-a) * b <= 0.0
  {
  }

  lemma PositiveProduct(a: real, b: real)
    requires a > 0.0 && b > 0.0
    ensures a * b > 0.0
  {
  }

  /** A run ends on its own exactly when it counts cycles: an interactive one that is not forced to
      never starts its grace period. */
  lemma GraceStartsIff(s: State, now: real, draws: Draws)
    requires Shape(s) && !s.finished && !s.paused && s.graceStart.None?
    requires s.nextSend.Some? ==> s.nextSend.value <= now
    ensures OnTick(s, now, draws).0.graceStart.Some?
            <==> s.numPing >= s.cfg.maxPing && (s.cfg.interactive ==> s.cfg.forceMaxPing)
  {
    SendKeepsCourse(s, now, draws);
    hide BatchEnd, StartBatch, ProbeBatchHop, SentCommand, Pace;
  }

  // ----- Waking up -----

  /** When the engine wants to be woken: at the end of the grace period, or at the next send, or at once;
      never when it is finished or paused. */
  predicate WakesAt(s: State, now: real, t: real) {
    && !s.finished && !s.paused
    && if s.graceStart.Some? then t == s.graceStart.value + (if s.cfg.graceTime > 0.0 then s.cfg.graceTime else 0.0)
       else if s.nextSend.Some? then t == s.nextSend.value
       else t == now
  }

  /** After every event the engine announces exactly when it wants to be woken, last and once. */
  lemma WakeIsAnnounced(s: State, ev: Event, now: real, draws: Draws)
    requires Shape(s)
    ensures var (s', out) := Handle(s, ev, now, draws);
            && (forall k :: 0 <= k < |out| && out[k].NextWake? ==> k == |out| - 1 && WakesAt(s', now, out[k].at))
            && (!s'.finished && !s'.paused ==> out != [] && out[|out| - 1].NextWake?)
  {
    hide Shape;
    NoWakeInReaction(s, ev, now, draws);
    hide React;
  }

  lemma NoWakeInReaction(s: State, ev: Event, now: real, draws: Draws)
    requires Shape(s)
    ensures forall k :: 0 <= k < |React(s, ev, now, draws).1| ==> !React(s, ev, now, draws).1[k].NextWake?
  {
    hide HopAfterSend, BatchEnd, HopAfterReply, EndTransit, Shape, ChooseSize, ChoosePattern, CacheSkips, PingParams;
  }

  /** A new engine's first tick probes the first hop of the range, under token 33000, at once. */
  lemma FirstTickProbes(cfg: Config, target: IpAddr, local: Option<IpAddr>, now: real, draws: Draws)
    requires cfg.maxPing > 0 || (cfg.interactive && !cfg.forceMaxPing)
    ensures var (s', out) := Handle(Init(cfg, target, local), Tick, now, draws);
            && |out| == 2 && out[0].SendProbe? && out[0].token == 33000 && out[0].params.target == target
            && out[0].params.ttl == Some(if cfg.firstTtl == 0 then 1 else cfg.firstTtl)
            && out[1].NextWake? && s'.hops[Max(cfg.firstTtl, 1) - 1].stats.xmit == 1
            && forall h :: 0 <= h < MAX_HOST && h != Max(cfg.firstTtl, 1) - 1 ==> s'.hops[h] == NewHop(1024)
  {
    FirstSend(cfg, target, local, now, draws);
    hide SendBatch, Pace, NewHop;
  }

  lemma FirstSend(cfg: Config, target: IpAddr, local: Option<IpAddr>, now: real, draws: Draws)
    ensures var (s', out, _) := SendBatch(Init(cfg, target, local), now, draws);
            var first := Max(cfg.firstTtl, 1) - 1;
            && |out| == 1 && out[0].SendProbe? && out[0].token == 33000 && out[0].params.target == target
            && out[0].params.ttl == Some(first + 1)
            && !s'.finished && !s'.paused && s'.graceStart.None? && s'.hops[first].stats.xmit == 1
            && forall h :: 0 <= h < MAX_HOST && h != first ==> s'.hops[h] == NewHop(1024)
  {
    hide BatchEnd, AfterPush, ChooseSize, ChoosePattern;
  }

  // ----- Settings -----

  predicate ProperTtls(cfg: Config) {
    1 <= cfg.firstTtl <= cfg.maxTtl
  }

  /** A proper TTL range stays proper whatever the user does; a TTL asked for within it is taken as
      given, one outside becomes the nearest bound. */
  lemma TtlRangeStaysProper(s: State, a: UserAction)
    requires Shape(s) && ProperTtls(s.cfg)
    ensures var cfg := OnAction(s, a).cfg;
            && ProperTtls(cfg)
            && (a.SetFirstTtl? ==>
                  && cfg == s.cfg.(firstTtl := cfg.firstTtl)
                  && (1 <= a.first <= s.cfg.maxTtl ==> cfg.firstTtl == a.first)
                  && (a.first < 1 ==> cfg.firstTtl == 1) && (a.first > s.cfg.maxTtl ==> cfg.firstTtl == s.cfg.maxTtl))
            && (a.SetMaxTtl? ==>
                  && cfg == s.cfg.(maxTtl := cfg.maxTtl)
                  && (a.max >= s.cfg.firstTtl ==> cfg.maxTtl == a.max)
                  && (a.max < s.cfg.firstTtl ==> cfg.maxTtl == s.cfg.firstTtl))
  {
    ActionReconfigures(s, a);
    hide Shape, OnAction, NextProtocol;
  }

  lemma ActionReconfigures(s: State, a: UserAction)
    requires Shape(s)
    ensures OnAction(s, a).cfg == Reconfigure(s.cfg, a)
  {
    hide Shape, ClampTtl, NextProtocol, NewHop, ClearTransit;
  }

  /** Each setting changes itself and nothing else; a setting out of range becomes the nearest value. */
  lemma SettingsChangeThemselves(s: State, a: UserAction)
    requires Shape(s)
    ensures var s' := OnAction(s, a);
            && (a.ToggleDns? ==> s' == s.(cfg := s.cfg.(dns := !s.cfg.dns)))
            && (a.ToggleMpls? ==> s' == s.(cfg := s.cfg.(showMpls := !s.cfg.showMpls)))
            && (a.ToggleAsn? ==> s' == s.(cfg := s.cfg.(ipinfoFields := s'.cfg.ipinfoFields))
                                 && (s.cfg.ipinfoFields == [] <==> s'.cfg.ipinfoFields != [])
                                 && s'.cfg.ipinfoFields in {[], [0]})
            && (a.SetInterval? ==> s' == s.(cfg := s.cfg.(interval := s'.cfg.interval))
                                   && s'.cfg.interval * 1000.0 == if a.ms == 0 then 1.0 else a.ms as real)
            && (a.SetPacketSize? ==> s' == s.(cfg := s.cfg.(packetSize := a.bytes)))
            && (a.SetBitPattern? ==> s' == s.(cfg := s.cfg.(bitPattern := a.pattern)))
            && (a.SetTos? ==> s' == s.(cfg := s.cfg.(tos := a.tos)))
            && (a.SetFields? ==> s' == s.(cfg := s.cfg.(fields := a.fields)))
  {
    hide Shape, OnReset, NextProtocol, ClampTtl, MinHop;
  }

  /** Pausing and resuming touch nothing else; a TTL bound moves the batch at most forward to the new
      first hop. */
  lemma PauseAndRangeChangeThemselves(s: State, a: UserAction)
    requires Shape(s)
    ensures var s' := OnAction(s, a);
            && (a.Pause? ==> s' == s.(paused := true)) && (a.Resume? ==> s' == s.(paused := false))
            && (a.SetMaxTtl? ==> s' == s.(cfg := s'.cfg))
            && (a.SetFirstTtl? ==> s' == s.(cfg := s'.cfg, batchAt := s'.batchAt)
                                   && s'.batchAt >= s.batchAt && s'.batchAt >= s'.cfg.firstTtl - 1
                                   && (s'.batchAt == s.batchAt || s'.batchAt == s'.cfg.firstTtl - 1))
  {
    hide Shape, OnReset, NextProtocol;
  }

  /** A reset forgets every probe and answer and starts the batch anew; tokens, cycles, timing,
      pause and settings stay, but that a change of protocol takes the next of ICMP, UDP and TCP. */
  lemma ResetForgetsOnlyProbes(s: State, a: UserAction)
    requires Shape(s) && a in {UserAction.Reset, UserAction.CycleProtocol}
    ensures var s' := OnAction(s, a);
            && s' == s.(cfg := s'.cfg, hops := s'.hops, seqs := s'.seqs, batchAt := Max(s.cfg.firstTtl, 1) - 1,
                        numhosts := s'.numhosts)
            && s'.numhosts == 10
            && (forall h :: 0 <= h < MAX_HOST ==> s'.hops[h] == NewHop(1024))
            && (forall t :: 0 <= t < MAX_SEQUENCE ==> !s'.seqs[t].transit)
            && s'.cfg == s.cfg.(protocol := s'.cfg.protocol)
            && s'.cfg.protocol == (if a == UserAction.Reset then s.cfg.protocol
                                   else if s.cfg.protocol == Icmp then Udp
                                   else if s.cfg.protocol == Udp then Tcp else Icmp)
  {
    hide NewHop;
  }
}
