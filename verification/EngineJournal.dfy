// An observer that sees only what goes into the engine and what comes out keeps an unbounded
// journal of every probe since the last reset. In every reachable state the engine's slot table,
// history rings and counters are exactly what that journal says.
module EngineJournal {
  import opened Common
  import opened Requests
  import opened Mpls
  import opened Responses
  import opened Stats
  import opened Histories
  import opened Hops
  import opened EngineSpec

  /** One probe: the token and hop it was sent under, its history entry, and whether its final
      outcome is still to come. */
  datatype Sent = Sent(token: int, hop: nat, entry: HistoryEntry, open: bool)

  datatype Heard = Heard(hop: nat, rtt: int)

  datatype Journal = Journal(sends: seq<Sent>, heard: seq<Heard>, paused: bool)

  // ----- Reading the journal -----

  /** The probes of one hop, oldest first. */
  function HopLog(sends: seq<Sent>, h: nat): seq<HistoryEntry> {
    if sends == [] then []
    else
      var n := |sends| - 1;
      HopLog(sends[..n], h) + (if sends[n].hop == h then [sends[n].entry] else [])
  }

  /** The round-trip times heard for one hop, in order of arrival. */
  function HopRtts(heard: seq<Heard>, h: nat): seq<int> {
    if heard == [] then []
    else
      var n := |heard| - 1;
      HopRtts(heard[..n], h) + (if heard[n].hop == h then [heard[n].rtt] else [])
  }

  /** The probe last sent under `token`. */
  function LatestUnder(sends: seq<Sent>, token: int): (r: Option<nat>)
    ensures r.Some? ==> r.value < |sends| && sends[r.value].token == token
    ensures r.Some? ==> forall i :: r.value < i < |sends| ==> sends[i].token != token
    ensures r.None? ==> forall i :: 0 <= i < |sends| ==> sends[i].token != token
  {
    if sends == [] then None
    else
      var n := |sends| - 1;
      if sends[n].token == token then Some(n) else LatestUnder(sends[..n], token)
  }

  function RttCount(log: seq<HistoryEntry>): nat {
    if log == [] then 0 else RttCount(log[..|log| - 1]) + if log[|log| - 1].sample.Rtt? then 1 else 0
  }

  // ----- Keeping the journal -----

  function NoteSend(j: Journal, token: int, hop: nat, now: real): Journal {
    j.(sends := j.sends + [Sent(token, hop, Fresh(|HopLog(j.sends, hop)| + 1, now), true)])
  }

  function SettleSend(sends: seq<Sent>, i: nat, sample: Sample, result: Option<ProbeResult>, mpls: seq<MplsLabel>,
                      open: bool): (r: seq<Sent>)
    requires i < |sends|
    ensures |r| == |sends|
  {
    sends[i := sends[i].(entry := Settle(sends[i].entry, sample, result, mpls), open := open)]
  }

  /** An answer concerns the probe last sent under its token, if that is still open: a reply settles
      it for good, a terminal failure marks it lost for good, a timeout marks it lost for now. */
  function NoteAnswer(j: Journal, token: int, kind: ResponseKind): Journal {
    var l := LatestUnder(j.sends, token);
    if j.paused || l.None? || !j.sends[l.value].open then j
    else if kind.Probe? then
      j.(sends := SettleSend(j.sends, l.value, Rtt(kind.rtt), Some(kind.result), kind.mpls, false),
         heard := j.heard + [Heard(j.sends[l.value].hop, WrapI32(kind.rtt))])
    else if kind == Bare(NoReply) then j.(sends := SettleSend(j.sends, l.value, Lost, None, [], true))
    else if FailureOf(kind).Some? then j.(sends := SettleSend(j.sends, l.value, Lost, None, [], false))
    else j
  }

  function NoteAction(j: Journal, a: UserAction): Journal {
    match a
    case Pause => j.(paused := true)
    case Resume => j.(paused := false)
    case Reset => Journal([], [], j.paused)
    case CycleProtocol => Journal([], [], j.paused)
    case _ => j
  }

  /** The journal after one event, from the event and the commands it caused. */
  function Note(j: Journal, ev: Event, now: real, out: seq<Command>): Journal {
    match ev
    case Tick =>
      if out != [] && out[0].SendProbe? && out[0].params.ttl.Some? && out[0].params.ttl.value > 0
      then NoteSend(j, out[0].token, out[0].params.ttl.value - 1, now)
      else j
    case Answer(token, kind) => NoteAnswer(j, token, kind)
    case Action(a) => NoteAction(j, a)
  }

  // ----- Agreement -----

  ghost predicate WellKept(sends: seq<Sent>) {
    forall i :: 0 <= i < |sends| ==>
                  && sends[i].hop < MAX_HOST
                  && MIN_SEQUENCE <= sends[i].token < MAX_SEQUENCE
                  && sends[i].entry.seqNo == |HopLog(sends[..i], sends[i].hop)| + 1
                  && (sends[i].open ==> !sends[i].entry.sample.Rtt?)
  }

  ghost predicate SlotAgrees(sends: seq<Sent>, slot: SeqSlot, token: int) {
    var l := LatestUnder(sends, token);
    && (slot.transit <==> l.Some? && sends[l.value].open)
    && (slot.transit ==> slot.hop == sends[l.value].hop && slot.savedSeq == sends[l.value].entry.seqNo)
  }

  ghost predicate CountersAgree(stats: Statistics, log: seq<HistoryEntry>, rtts: seq<int>) {
    && stats.xmit == |log|
    && stats.rtts == Folded(rtts)
    && RttCount(log) == |rtts|
    && (stats.transit == 0 || (stats.transit == 1 && log != [] && !log[|log| - 1].sample.Rtt?))
  }

  ghost predicate HopAgrees(j: Journal, hop: HopState, h: nat) {
    && hop.history == RingOf(HopLog(j.sends, h), HISTORY_LEN)
    && CountersAgree(hop.stats, HopLog(j.sends, h), HopRtts(j.heard, h))
    && DistinctResponders(hop.addrs)
  }

  ghost predicate Agrees(j: Journal, s: State)
    requires Shape(s)
  {
    && WellKept(j.sends)
    && j.paused == s.paused
    && (forall t :: 0 <= t < MAX_SEQUENCE ==> SlotAgrees(j.sends, s.seqs[t], t))
    && (forall h :: 0 <= h < MAX_HOST ==> HopAgrees(j, s.hops[h], h))
  }

  const BLANK := Journal([], [], false)

  lemma NewHopAgrees(j: Journal, h: nat)
    requires j.sends == [] && j.heard == []
    ensures HopAgrees(j, NewHop(HISTORY_LEN), h)
  {
    assert HopLog(j.sends, h) == [] && HopRtts(j.heard, h) == [];
    var none: seq<HistoryEntry> := [];
    assert none[0..] == [];
  }

  lemma InitAgrees(cfg: Config, target: IpAddr, local: Option<IpAddr>)
    ensures Agrees(BLANK, Init(cfg, target, local))
  {
    var s := Init(cfg, target, local);
    forall h | 0 <= h < MAX_HOST ensures HopAgrees(BLANK, s.hops[h], h) {
      NewHopAgrees(BLANK, h);
    }
  }

  // ----- Sending -----

  lemma HopLogPush(sends: seq<Sent>, x: Sent, h: nat)
    ensures HopLog(sends + [x], h) == HopLog(sends, h) + if x.hop == h then [x.entry] else []
  {
    assert (sends + [x])[..|sends|] == sends;
  }

  lemma RttCountPush(log: seq<HistoryEntry>, e: HistoryEntry)
    ensures RttCount(log + [e]) == RttCount(log) + if e.sample.Rtt? then 1 else 0
  {
    assert (log + [e])[..|log|] == log;
  }

  lemma LatestPush(sends: seq<Sent>, x: Sent, token: int)
    ensures LatestUnder(sends + [x], token) == if x.token == token then Some(|sends|) else LatestUnder(sends, token)
  {
    assert (sends + [x])[..|sends|] == sends;
  }

  lemma WellKeptPush(sends: seq<Sent>, x: Sent)
    requires WellKept(sends)
    requires x.hop < MAX_HOST && MIN_SEQUENCE <= x.token < MAX_SEQUENCE
    requires x.entry.seqNo == |HopLog(sends, x.hop)| + 1 && !x.entry.sample.Rtt?
    ensures WellKept(sends + [x])
  {
    var all := sends + [x];
    forall i | 0 <= i < |all|
      ensures all[i].hop < MAX_HOST && MIN_SEQUENCE <= all[i].token < MAX_SEQUENCE
              && all[i].entry.seqNo == |HopLog(all[..i], all[i].hop)| + 1
              && (all[i].open ==> !all[i].entry.sample.Rtt?)
    {
      if i < |sends| {
        assert all[..i] == sends[..i] && all[i] == sends[i];
      } else {
        assert all[..i] == sends;
      }
    }
  }

  lemma SentHopAgrees(j: Journal, hop: HopState, h: nat, token: int, now: real)
    requires HopAgrees(j, hop, h)
    ensures HopAgrees(NoteSend(j, token, h, now), HopAfterSend(hop, now), h)
  {
    var log := HopLog(j.sends, h);
    var e := Fresh(|log| + 1, now);
    HopLogPush(j.sends, Sent(token, h, e, true), h);
    PushIsLogPush(log, HISTORY_LEN, now);
    RttCountPush(log, e);
    hide HopLog, HopRtts, RingOf, AfterPush, Folded, DistinctResponders;
  }

  lemma OtherHopSent(j: Journal, hop: HopState, h: nat, token: int, other: nat, now: real)
    requires HopAgrees(j, hop, h) && other != h
    ensures HopAgrees(NoteSend(j, token, other, now), hop, h)
  {
    HopLogPush(j.sends, Sent(token, other, Fresh(|HopLog(j.sends, other)| + 1, now), true), h);
    assert HopLog(j.sends, h) + [] == HopLog(j.sends, h);
    hide HopLog, HopRtts, RingOf, Folded, DistinctResponders;
  }

  lemma SendAgrees(j: Journal, s: State, at: nat, now: real)
    requires Shape(s) && Agrees(j, s) && at < MAX_HOST
    ensures Agrees(NoteSend(j, s.nextSequence, at, now), SendQuery(s, at, now))
  {
    var j', s' := NoteSend(j, s.nextSequence, at, now), SendQuery(s, at, now);
    var x := j'.sends[|j.sends|];
    WellKeptPush(j.sends, x);
    assert HopAgrees(j, s.hops[at], at);
    forall t | 0 <= t < MAX_SEQUENCE ensures SlotAgrees(j'.sends, s'.seqs[t], t) {
      LatestPush(j.sends, x, t);
      assert SlotAgrees(j.sends, s.seqs[t], t);
      hide LatestUnder, HopLog;
    }
    forall h | 0 <= h < MAX_HOST ensures HopAgrees(j', s'.hops[h], h) {
      assert HopAgrees(j, s.hops[h], h);
      hide HopAgrees, HopAfterSend;
      if h == at {
        SentHopAgrees(j, s.hops[h], h, s.nextSequence, now);
      } else {
        OtherHopSent(j, s.hops[h], h, s.nextSequence, at, now);
      }
    }
  }

  // ----- Settling -----

  /** Settling probe `i` settles, in its hop's log, the entry its send counter names. */
  lemma {:induction false} HopLogSettle(sends: seq<Sent>, i: nat, x: Sent, h: nat)
    requires i < |sends| && x.hop == sends[i].hop
    requires sends[i].entry.seqNo == |HopLog(sends[..i], sends[i].hop)| + 1
    ensures h != x.hop ==> HopLog(sends[i := x], h) == HopLog(sends, h)
    ensures h == x.hop ==> 1 <= sends[i].entry.seqNo <= |HopLog(sends, h)|
                           && HopLog(sends, h)[sends[i].entry.seqNo - 1] == sends[i].entry
                           && HopLog(sends[i := x], h) == HopLog(sends, h)[sends[i].entry.seqNo - 1 := x.entry]
  {
    var n := |sends| - 1;
    if i == n {
      assert sends[i := x][..n] == sends[..n];
    } else {
      assert sends[..n][..i] == sends[..i];
      HopLogSettle(sends[..n], i, x, h);
      assert sends[i := x][..n] == sends[..n][i := x];
    }
  }

  lemma {:induction false} LatestSettle(sends: seq<Sent>, i: nat, x: Sent, token: int)
    requires i < |sends| && x.token == sends[i].token
    ensures LatestUnder(sends[i := x], token) == LatestUnder(sends, token)
  {
    var n := |sends| - 1;
    if i == n {
      assert sends[i := x][..n] == sends[..n];
    } else {
      LatestSettle(sends[..n], i, x, token);
      assert sends[i := x][..n] == sends[..n][i := x];
    }
  }

  lemma {:induction false} RttCountSettle(log: seq<HistoryEntry>, i: nat, e: HistoryEntry)
    requires i < |log| && !log[i].sample.Rtt?
    ensures RttCount(log[i := e]) == RttCount(log) + if e.sample.Rtt? then 1 else 0
  {
    var n := |log| - 1;
    if i == n {
      assert log[i := e][..n] == log[..n];
    } else {
      RttCountSettle(log[..n], i, e);
      assert log[i := e][..n] == log[..n][i := e];
    }
  }

  lemma WellKeptSettle(sends: seq<Sent>, i: nat, x: Sent)
    requires WellKept(sends) && i < |sends|
    requires x.token == sends[i].token && x.hop == sends[i].hop && x.entry.seqNo == sends[i].entry.seqNo
    requires x.open ==> !x.entry.sample.Rtt?
    ensures WellKept(sends[i := x])
  {
    var all := sends[i := x];
    forall k | 0 <= k < |all|
      ensures all[k].hop < MAX_HOST && MIN_SEQUENCE <= all[k].token < MAX_SEQUENCE
              && all[k].entry.seqNo == |HopLog(all[..k], all[k].hop)| + 1
              && (all[k].open ==> !all[k].entry.sample.Rtt?)
    {
      if k <= i {
        assert all[..k] == sends[..k];
      } else {
        assert all[..k] == sends[..k][i := x];
        assert sends[..k][..i] == sends[..i];
        HopLogSettle(sends[..k], i, x, all[k].hop);
      }
    }
  }

  /** The slot table after probe `l`, the latest under `token`, is settled. */
  lemma SettledSlotsAgree(sends: seq<Sent>, seqs: seq<SeqSlot>, token: int, l: nat, x: Sent)
    requires |seqs| == MAX_SEQUENCE && 0 <= token < MAX_SEQUENCE
    requires forall t :: 0 <= t < MAX_SEQUENCE ==> SlotAgrees(sends, seqs[t], t)
    requires LatestUnder(sends, token) == Some(l) && sends[l].open
    requires x.token == token && x.hop == sends[l].hop && x.entry.seqNo == sends[l].entry.seqNo
    ensures var seqs' := seqs[token := seqs[token].(transit := x.open)];
            forall t :: 0 <= t < MAX_SEQUENCE ==> SlotAgrees(sends[l := x], seqs'[t], t)
  {
    var seqs' := seqs[token := seqs[token].(transit := x.open)];
    forall t | 0 <= t < MAX_SEQUENCE ensures SlotAgrees(sends[l := x], seqs'[t], t) {
      assert SlotAgrees(sends, seqs[t], t) && SlotAgrees(sends, seqs[token], token);
      LatestSettle(sends, l, x, t);
    }
  }

  /** What the settled entry of hop `h` does to its agreement, given the new counters agree. */
  lemma SettledHopAgrees(j: Journal, hop: HopState, hop': HopState, l: nat, sample: Sample,
                         result: Option<ProbeResult>, mpls: seq<MplsLabel>, open: bool, heard: seq<Heard>)
    requires l < |j.sends| && WellKept(j.sends) && !j.sends[l].entry.sample.Rtt?
    requires HopAgrees(j, hop, j.sends[l].hop)
    requires hop'.history == AfterOutcome(hop.history, j.sends[l].entry.seqNo, sample, result, mpls)
    requires DistinctResponders(hop'.addrs)
    requires var h := j.sends[l].hop;
             var log := HopLog(j.sends, h);
             var k := j.sends[l].entry.seqNo - 1;
             0 <= k < |log| && log[k] == j.sends[l].entry ==>
               CountersAgree(hop'.stats, log[k := Settle(log[k], sample, result, mpls)], HopRtts(heard, h))
    ensures HopAgrees(Journal(SettleSend(j.sends, l, sample, result, mpls, open), heard, j.paused), hop', j.sends[l].hop)
  {
    var h := j.sends[l].hop;
    var x := j.sends[l].(entry := Settle(j.sends[l].entry, sample, result, mpls), open := open);
    HopLogSettle(j.sends, l, x, h);
    OutcomeIsLogOutcome(HopLog(j.sends, h), HISTORY_LEN, j.sends[l].entry.seqNo, sample, result, mpls);
    hide HopLog, RingOf, AfterOutcome, CountersAgree, DistinctResponders, HopRtts;
  }

  lemma OtherHopSettled(j: Journal, hop: HopState, h: nat, l: nat, sample: Sample, result: Option<ProbeResult>,
                        mpls: seq<MplsLabel>, open: bool, heard: seq<Heard>)
    requires l < |j.sends| && WellKept(j.sends) && h != j.sends[l].hop
    requires HopAgrees(j, hop, h) && HopRtts(heard, h) == HopRtts(j.heard, h)
    ensures HopAgrees(Journal(SettleSend(j.sends, l, sample, result, mpls, open), heard, j.paused), hop, h)
  {
    var x := j.sends[l].(entry := Settle(j.sends[l].entry, sample, result, mpls), open := open);
    HopLogSettle(j.sends, l, x, h);
  }

  lemma HeardPush(heard: seq<Heard>, x: Heard, h: nat)
    ensures HopRtts(heard + [x], h) == HopRtts(heard, h) + if x.hop == h then [x.rtt] else []
  {
    assert (heard + [x])[..|heard|] == heard;
  }

  lemma FoldedPush(rtts: seq<int>, x: int)
    ensures Folded(rtts + [x]) == AfterRtt(Folded(rtts), x)
  {
    assert (rtts + [x])[..|rtts|] == rtts;
  }

  /** Counting a reply: one more entry is an RTT, one more value is folded in. */
  lemma ReplyCounters(stats: Statistics, log: seq<HistoryEntry>, rtts: seq<int>, k: nat, e: HistoryEntry, rtt: int)
    requires CountersAgree(stats, log, rtts) && k < |log| && !log[k].sample.Rtt? && e.sample.Rtt?
    ensures CountersAgree(AfterReply(stats, rtt), log[k := e], rtts + [rtt])
  {
    RttCountSettle(log, k, e);
    FoldedPush(rtts, rtt);
  }

  /** Marking an entry lost moves no counter, and leaves a probe in flight meaningful. */
  lemma LostCounters(stats: Statistics, log: seq<HistoryEntry>, rtts: seq<int>, k: nat, e: HistoryEntry)
    requires CountersAgree(stats, log, rtts) && k < |log| && !log[k].sample.Rtt? && !e.sample.Rtt?
    ensures CountersAgree(stats, log[k := e], rtts)
    ensures CountersAgree(stats.(transit := 0), log[k := e], rtts)
  {
    RttCountSettle(log, k, e);
  }

  /** The three kinds of settling, on the hop concerned. */
  lemma ReplyHopAgrees(j: Journal, s: State, l: nat, r: ReplyInfo)
    requires l < |j.sends| && WellKept(j.sends) && !j.sends[l].entry.sample.Rtt?
    requires Shape(s) && HopAgrees(j, s.hops[j.sends[l].hop], j.sends[l].hop) && r.savedSeq == j.sends[l].entry.seqNo
    ensures var h := j.sends[l].hop;
            HopAgrees(Journal(SettleSend(j.sends, l, Rtt(r.rtt), Some(r.result), r.mpls, false),
                              j.heard + [Heard(h, WrapI32(r.rtt))], j.paused),
                      HopAfterReply(s.hops[h], r), h)
  {
    var h := j.sends[l].hop;
    var hop := s.hops[h];
    var log, k := HopLog(j.sends, h), j.sends[l].entry.seqNo - 1;
    HeardPush(j.heard, Heard(h, WrapI32(r.rtt)), h);
    ResponderIsCounted(hop.addrs, r);
    hide HopLog, HopRtts, AfterRtt, AfterOutcome, AfterResponder, Folded, RingOf;
    if 0 <= k < |log| && log[k] == j.sends[l].entry {
      ReplyCounters(hop.stats, log, HopRtts(j.heard, h), k, Settle(log[k], Rtt(r.rtt), Some(r.result), r.mpls),
                    WrapI32(r.rtt));
    }
    SettledHopAgrees(j, hop, HopAfterReply(hop, r), l, Rtt(r.rtt), Some(r.result), r.mpls, false,
                     j.heard + [Heard(h, WrapI32(r.rtt))]);
  }

  lemma LostHopAgrees(j: Journal, hop: HopState, hop': HopState, l: nat, open: bool)
    requires l < |j.sends| && WellKept(j.sends) && !j.sends[l].entry.sample.Rtt?
    requires HopAgrees(j, hop, j.sends[l].hop)
    requires hop'.history == AfterOutcome(hop.history, j.sends[l].entry.seqNo, Lost, None, [])
    requires hop'.addrs == hop.addrs && hop'.stats in {hop.stats, hop.stats.(transit := 0)}
    ensures HopAgrees(j.(sends := SettleSend(j.sends, l, Lost, None, [], open)), hop', j.sends[l].hop)
  {
    var h := j.sends[l].hop;
    var log, k := HopLog(j.sends, h), j.sends[l].entry.seqNo - 1;
    hide HopLog, HopRtts, AfterOutcome, Folded, RingOf;
    if 0 <= k < |log| && log[k] == j.sends[l].entry {
      LostCounters(hop.stats, log, HopRtts(j.heard, h), k, Settle(log[k], Lost, None, []));
    }
    SettledHopAgrees(j, hop, hop', l, Lost, None, [], open, j.heard);
  }

  lemma SlotOfAnswer(j: Journal, s: State, token: int)
    requires Shape(s) && Agrees(j, s) && KnownToken(token)
    ensures s.seqs[token].transit <==>
            LatestUnder(j.sends, token).Some? && j.sends[LatestUnder(j.sends, token).value].open
    ensures s.seqs[token].transit ==>
              var x := j.sends[LatestUnder(j.sends, token).value];
              && s.seqs[token].hop == x.hop && s.seqs[token].savedSeq == x.entry.seqNo
              && x.hop < MAX_HOST && !x.entry.sample.Rtt? && HopAgrees(j, s.hops[x.hop], x.hop)
  {
    assert SlotAgrees(j.sends, s.seqs[token], token);
  }

  /** Answers under tokens the engine never used concern nobody. */
  lemma UnknownTokenIsNobodys(j: Journal, token: int)
    requires WellKept(j.sends) && !KnownToken(token)
    ensures LatestUnder(j.sends, token).None?
  {
  }

  /** All other hops, when probe `l` is settled and `heard` grows only for its hop. */
  lemma OthersAgree(j: Journal, s: State, l: nat, sample: Sample, result: Option<ProbeResult>, mpls: seq<MplsLabel>,
                    open: bool, heard: seq<Heard>)
    requires Shape(s) && Agrees(j, s) && l < |j.sends|
    requires heard == j.heard
             || (|heard| > 0 && heard[..|heard| - 1] == j.heard && heard[|heard| - 1].hop == j.sends[l].hop)
    ensures forall h :: 0 <= h < MAX_HOST && h != j.sends[l].hop ==>
                          HopAgrees(Journal(SettleSend(j.sends, l, sample, result, mpls, open), heard, j.paused),
                                    s.hops[h], h)
  {
    hide HopAgrees, WellKept;
    forall h | 0 <= h < MAX_HOST && h != j.sends[l].hop
      ensures HopAgrees(Journal(SettleSend(j.sends, l, sample, result, mpls, open), heard, j.paused), s.hops[h], h)
    {
      if heard != j.heard {
        HeardPush(j.heard, heard[|heard| - 1], h);
        assert heard == j.heard + [heard[|heard| - 1]];
      }
      OtherHopSettled(j, s.hops[h], h, l, sample, result, mpls, open, heard);
    }
  }

  lemma SettledTableAgrees(j: Journal, s: State, token: int, l: nat, sample: Sample, result: Option<ProbeResult>,
                           mpls: seq<MplsLabel>, open: bool)
    requires Shape(s) && Agrees(j, s) && KnownToken(token)
    requires LatestUnder(j.sends, token) == Some(l) && j.sends[l].open
    requires open ==> !sample.Rtt?
    ensures var sends' := SettleSend(j.sends, l, sample, result, mpls, open);
            var seqs' := s.seqs[token := s.seqs[token].(transit := open)];
            && WellKept(sends')
            && forall t :: 0 <= t < MAX_SEQUENCE ==> SlotAgrees(sends', seqs'[t], t)
  {
    var x := j.sends[l].(entry := Settle(j.sends[l].entry, sample, result, mpls), open := open);
    WellKeptSettle(j.sends, l, x);
    SettledSlotsAgree(j.sends, s.seqs, token, l, x);
  }

  lemma ReplyAgrees(j: Journal, s: State, token: int, kind: ResponseKind, now: real)
    requires Shape(s) && Agrees(j, s) && KnownToken(token) && !s.paused && s.seqs[token].transit && kind.Probe?
    ensures Agrees(NoteAnswer(j, token, kind), OnAnswer(s, token, kind, now).0)
  {
    SlotOfAnswer(j, s, token);
    var l := LatestUnder(j.sends, token).value;
    var h := j.sends[l].hop;
    var heard := j.heard + [Heard(h, WrapI32(kind.rtt))];
    ReplyHopAgrees(j, s, l, ReplyFor(s, s.seqs[token], kind, now));
    OthersAgree(j, s, l, Rtt(kind.rtt), Some(kind.result), kind.mpls, false, heard);
    SettledTableAgrees(j, s, token, l, Rtt(kind.rtt), Some(kind.result), kind.mpls, false);
    hide HopAgrees, SlotAgrees, WellKept, LatestUnder, SettleSend, HopAfterReply;
  }

  lemma NoReplyAgrees(j: Journal, s: State, token: int, now: real)
    requires Shape(s) && Agrees(j, s) && KnownToken(token) && !s.paused && s.seqs[token].transit
    ensures Agrees(NoteAnswer(j, token, Bare(NoReply)), OnAnswer(s, token, Bare(NoReply), now).0)
  {
    SlotOfAnswer(j, s, token);
    var l := LatestUnder(j.sends, token).value;
    var h := j.sends[l].hop;
    LostHopAgrees(j, s.hops[h], HopAfterNoReply(s.hops[h], s.seqs[token].savedSeq), l, true);
    OthersAgree(j, s, l, Lost, None, [], true, j.heard);
    SettledTableAgrees(j, s, token, l, Lost, None, [], true);
    hide HopAgrees, SlotAgrees, WellKept, LatestUnder, SettleSend, HopAfterNoReply;
    assert s.seqs[token := s.seqs[token].(transit := true)] == s.seqs;
  }

  lemma FailureAgrees(j: Journal, s: State, token: int, kind: ResponseKind, now: real)
    requires Shape(s) && Agrees(j, s) && KnownToken(token) && !s.paused && s.seqs[token].transit
    requires FailureOf(kind).Some?
    ensures Agrees(NoteAnswer(j, token, kind), OnAnswer(s, token, kind, now).0)
  {
    SlotOfAnswer(j, s, token);
    var l := LatestUnder(j.sends, token).value;
    var h := j.sends[l].hop;
    LostHopAgrees(j, s.hops[h], HopAfterSendError(s.hops[h], FailureOf(kind).value, s.seqs[token].savedSeq), l, false);
    OthersAgree(j, s, l, Lost, None, [], false, j.heard);
    SettledTableAgrees(j, s, token, l, Lost, None, [], false);
    hide HopAgrees, SlotAgrees, WellKept, LatestUnder, SettleSend, HopAfterSendError;
  }

  lemma AnswerAgrees(j: Journal, s: State, token: int, kind: ResponseKind, now: real)
    requires Shape(s) && Agrees(j, s)
    ensures Agrees(NoteAnswer(j, token, kind), OnAnswer(s, token, kind, now).0)
  {
    if !KnownToken(token) {
      UnknownTokenIsNobodys(j, token);
    } else if !s.paused {
      SlotOfAnswer(j, s, token);
      hide Agrees;
      if s.seqs[token].transit {
        if kind.Probe? {
          ReplyAgrees(j, s, token, kind, now);
        } else if kind == Bare(NoReply) {
          NoReplyAgrees(j, s, token, now);
        } else if FailureOf(kind).Some? {
          FailureAgrees(j, s, token, kind, now);
        }
      }
    }
  }

  // ----- Ticks and actions -----

  lemma EndTransitAgrees(j: Journal, s: State)
    requires Shape(s) && Agrees(j, s)
    ensures Agrees(j, s.(finished := true, hops := EndTransit(s.hops)))
  {
    var s' := s.(finished := true, hops := EndTransit(s.hops));
    forall h | 0 <= h < MAX_HOST ensures HopAgrees(j, s'.hops[h], h) {
      assert HopAgrees(j, s.hops[h], h);
    }
  }

  lemma SameTablesAgree(j: Journal, s: State, s': State)
    requires Shape(s) && Shape(s') && Agrees(j, s)
    requires s'.hops == s.hops && s'.seqs == s.seqs && s'.paused == s.paused
    ensures Agrees(j, s')
  {
  }

  lemma BatchAgrees(j: Journal, s: State, now: real, draws: Draws)
    requires Shape(s) && Agrees(j, s)
    ensures var (s', out, _) := SendBatch(s, now, draws);
            && Agrees(if out == [] then j else NoteSend(j, s.nextSequence, s.batchAt, now), s')
            && (out != [] ==> out == [Command.SendProbe(s.nextSequence, out[0].params)]
                              && out[0].params.ttl == Some(s.batchAt + 1))
  {
    hide Agrees, BatchEnd, SendQuery, NoteSend, ChooseSize, ChoosePattern, CacheSkips, PingParams;
    var s1 := StartBatch(s, draws);
    SameTablesAgree(j, s, s1);
    var s2 := ProbeBatchHop(s1, now);
    var j' := if CacheSkips(s1, s1.batchAt, now) then j else NoteSend(j, s.nextSequence, s.batchAt, now);
    if !CacheSkips(s1, s1.batchAt, now) {
      SendAgrees(j, s1, s1.batchAt, now);
      PingTtl(s1, s1.batchAt);
    }
    SameTablesAgree(j', s2, EndOrAdvance(s2).0);
  }

  lemma PingTtl(s: State, at: nat)
    requires at <= 254
    ensures PingParams(s, at).ttl == Some(at + 1)
  {
  }

  lemma TickAgrees(j: Journal, s: State, now: real, draws: Draws)
    requires Shape(s) && Agrees(j, s)
    ensures var (s', out) := Handle(s, Tick, now, draws);
            Agrees(Note(j, Tick, now, out), s')
  {
    hide Agrees, SendBatch, NoteSend, EndTransit, Pace, PingParams;
    var (s', cmds) := OnTick(s, now, draws);
    var (_, out) := Handle(s, Tick, now, draws);
    assert out[..|cmds|] == cmds;
    BatchAgrees(j, s, now, draws);
    var (s1, sent, _) := SendBatch(s, now, draws);
    if s.finished || s.paused || s.graceStart.Some? || (s.nextSend.Some? && now < s.nextSend.value) || CyclesDone(s) {
      assert out == [] || !out[0].SendProbe?;
      EndTransitAgrees(j, s);
      if !s'.finished || s.finished {
        SameTablesAgree(j, s, s');
      }
    } else {
      var j' := if sent == [] then j else NoteSend(j, s.nextSequence, s.batchAt, now);
      SameTablesAgree(j', s1, s');
      assert cmds == sent;
      assert Note(j, Tick, now, out) == j';
    }
  }

  lemma ActionAgrees(j: Journal, s: State, a: UserAction)
    requires Shape(s) && Agrees(j, s)
    ensures Agrees(NoteAction(j, a), OnAction(s, a))
  {
    if a == Reset || a == CycleProtocol {
      var j', s' := NoteAction(j, a), OnAction(s, a);
      forall h | 0 <= h < MAX_HOST ensures HopAgrees(j', s'.hops[h], h) {
        NewHopAgrees(j', h);
      }
    }
    hide HopAgrees, SlotAgrees, WellKept;
  }

  /** One event keeps the engine in agreement with the journal. */
  lemma HandleAgrees(j: Journal, s: State, ev: Event, now: real, draws: Draws)
    requires Shape(s) && Agrees(j, s)
    ensures var (s', out) := Handle(s, ev, now, draws);
            Agrees(Note(j, ev, now, out), s')
  {
    match ev {
      case Tick => TickAgrees(j, s, now, draws);
      case Answer(token, kind) => AnswerAgrees(j, s, token, kind, now);
      case Action(a) => ActionAgrees(j, s, a);
    }
  }

  // ----- Whole runs -----

  datatype Input = Input(ev: Event, now: real, draws: Draws)

  /** State and journal after any inputs at all. */
  function RunFrom(s: State, j: Journal, inputs: seq<Input>): (r: (State, Journal))
    requires Shape(s)
    ensures Shape(r.0)
    decreases |inputs|
  {
    if inputs == [] then (s, j)
    else
      var i := inputs[0];
      var (s', out) := Handle(s, i.ev, i.now, i.draws);
      RunFrom(s', Note(j, i.ev, i.now, out), inputs[1..])
  }

  function Reached(cfg: Config, target: IpAddr, local: Option<IpAddr>, inputs: seq<Input>): (r: (State, Journal))
    ensures Shape(r.0)
  {
    RunFrom(Init(cfg, target, local), BLANK, inputs)
  }

  lemma {:induction false} RunAgrees(s: State, j: Journal, inputs: seq<Input>)
    requires Shape(s) && Agrees(j, s)
    ensures Agrees(RunFrom(s, j, inputs).1, RunFrom(s, j, inputs).0)
    decreases |inputs|
  {
    if inputs != [] {
      hide Agrees, Handle, Note;
      var i := inputs[0];
      var (s', out) := Handle(s, i.ev, i.now, i.draws);
      HandleAgrees(j, s, i.ev, i.now, i.draws);
      RunAgrees(s', Note(j, i.ev, i.now, out), inputs[1..]);
    }
  }

  /** Over every run from every configuration: ticks, answers, actions, in any order, at any times. */
  lemma EveryRunAgrees(cfg: Config, target: IpAddr, local: Option<IpAddr>, inputs: seq<Input>)
    ensures var (s, j) := Reached(cfg, target, local, inputs); Agrees(j, s)
  {
    InitAgrees(cfg, target, local);
    RunAgrees(Init(cfg, target, local), BLANK, inputs);
  }
}
