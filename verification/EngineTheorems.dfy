// What agreement with the journal means for tokens, histories and statistics over whole runs.
module EngineTheorems {
  import opened Common
  import opened Requests
  import opened Mpls
  import opened Responses
  import opened Stats
  import opened Histories
  import opened Hops
  import opened EngineSpec
  import opened EngineJournal

  // ----- Tokens -----

  lemma {:induction false} LogGrows(sends: seq<Sent>, i: nat, k: nat, h: nat)
    requires i <= k <= |sends|
    ensures |HopLog(sends[..i], h)| <= |HopLog(sends[..k], h)|
    decreases k
  {
    if i < k {
      LogGrows(sends, i, k - 1, h);
      assert sends[..k][..k - 1] == sends[..k - 1];
    }
  }

  /** Send counters of one hop grow with every probe. */
  lemma CountersGrow(sends: seq<Sent>, i: nat, k: nat)
    requires WellKept(sends) && i < k < |sends| && sends[i].hop == sends[k].hop
    ensures sends[i].entry.seqNo < sends[k].entry.seqNo
  {
    LogGrows(sends, i + 1, k, sends[i].hop);
    assert sends[..i + 1][..i] == sends[..i];
  }

  /** Two tokens in flight never name the same probe of the same hop. */
  lemma InFlightTokensDiffer(j: Journal, s: State, t: nat, u: nat)
    requires Shape(s) && Agrees(j, s)
    requires t < MAX_SEQUENCE && u < MAX_SEQUENCE && t != u && s.seqs[t].transit && s.seqs[u].transit
    ensures (s.seqs[t].hop, s.seqs[t].savedSeq) != (s.seqs[u].hop, s.seqs[u].savedSeq)
  {
    SlotOfAnswer(j, s, t);
    SlotOfAnswer(j, s, u);
    var a, b := LatestUnder(j.sends, t).value, LatestUnder(j.sends, u).value;
    if j.sends[a].hop == j.sends[b].hop {
      CountersGrow(j.sends, Min(a, b), Max(a, b));
    }
  }

  /** In flight means: sent since the last reset, not superseded by a later probe under the same
      token, and not finally answered. */
  lemma InFlightIff(j: Journal, s: State, t: nat)
    requires Shape(s) && Agrees(j, s) && t < MAX_SEQUENCE
    ensures s.seqs[t].transit <==>
            exists i :: 0 <= i < |j.sends| && j.sends[i].token == t && j.sends[i].open
                        && forall k :: i < k < |j.sends| ==> j.sends[k].token != t
  {
    SlotOfAnswer(j, s, t);
  }

  /** An answer the journal has no open probe for changes nothing and causes nothing. */
  lemma StrayAnswerIsIgnored(j: Journal, s: State, token: int, kind: ResponseKind, now: real)
    requires Shape(s) && Agrees(j, s)
    requires j.paused || LatestUnder(j.sends, token).None? || !j.sends[LatestUnder(j.sends, token).value].open
    ensures OnAnswer(s, token, kind, now) == (s, []) && NoteAnswer(j, token, kind) == j
  {
    if KnownToken(token) {
      SlotOfAnswer(j, s, token);
    }
  }

  /** In the journal: one entry of one hop's log. */
  lemma ReplySettlesLog(j: Journal, token: int, l: nat, kind: ResponseKind)
    requires WellKept(j.sends) && kind.Probe? && !j.paused
    requires LatestUnder(j.sends, token) == Some(l) && j.sends[l].open
    ensures var x, k := j.sends[l], j.sends[l].entry.seqNo - 1;
            var log := HopLog(j.sends, x.hop);
            && x.hop < MAX_HOST && 0 <= k < |log| && log[k] == x.entry && !x.entry.sample.Rtt?
            && HopLog(NoteAnswer(j, token, kind).sends, x.hop)
               == log[k := Settle(x.entry, Rtt(kind.rtt), Some(kind.result), kind.mpls)]
  {
    var x := j.sends[l];
    var settled := Settle(x.entry, Rtt(kind.rtt), Some(kind.result), kind.mpls);
    HopLogSettle(j.sends, l, x.(entry := settled, open := false), x.hop);
    hide HopLog;
  }

  /** In the engine: one hop and one slot. */
  lemma ReplyTouchesOneHop(j: Journal, s: State, token: int, l: nat, kind: ResponseKind, now: real)
    requires Shape(s) && Agrees(j, s) && kind.Probe? && !j.paused
    requires LatestUnder(j.sends, token) == Some(l) && j.sends[l].open
    ensures var x, s' := j.sends[l], OnAnswer(s, token, kind, now).0;
            && x.hop < MAX_HOST && KnownToken(token)
            && s'.hops == s.hops[x.hop := s'.hops[x.hop]]
            && s'.seqs == s.seqs[token := s.seqs[token].(transit := false)]
  {
    if !KnownToken(token) {
      UnknownTokenIsNobodys(j, token);
    }
    SlotOfAnswer(j, s, token);
    hide Agrees, HopAfterReply, LatestUnder, WellKept;
  }

  /** An accepted reply settles exactly the entry of the probe last sent under its token: one entry
      of one hop's log, no other hop, no other token. */
  lemma ReplySettlesOneEntry(j: Journal, s: State, token: int, l: nat, kind: ResponseKind, now: real)
    requires Shape(s) && Agrees(j, s) && kind.Probe? && !j.paused
    requires LatestUnder(j.sends, token) == Some(l) && j.sends[l].open
    ensures var x, k := j.sends[l], j.sends[l].entry.seqNo - 1;
            var j', s' := NoteAnswer(j, token, kind), OnAnswer(s, token, kind, now).0;
            var log := HopLog(j.sends, x.hop);
            && x.hop < MAX_HOST && 0 <= k < |log| && log[k] == x.entry && !x.entry.sample.Rtt?
            && HopLog(j'.sends, x.hop) == log[k := Settle(x.entry, Rtt(kind.rtt), Some(kind.result), kind.mpls)]
            && s'.hops[x.hop].history == RingOf(HopLog(j'.sends, x.hop), HISTORY_LEN)
            && s'.hops == s.hops[x.hop := s'.hops[x.hop]]
            && KnownToken(token) && s'.seqs == s.seqs[token := s.seqs[token].(transit := false)]
  {
    ReplySettlesLog(j, token, l, kind);
    ReplyTouchesOneHop(j, s, token, l, kind, now);
    AnswerAgrees(j, s, token, kind, now);
    hide HopLog, LatestUnder, OnAnswer, NoteAnswer, RingOf;
    var x, j', s' := j.sends[l], NoteAnswer(j, token, kind), OnAnswer(s, token, kind, now).0;
    assert HopAgrees(j', s'.hops[x.hop], x.hop);
  }

  // ----- Round-trip times are final -----

  predicate Resets(ev: Event) {
    ev.Action? && ev.action in {Reset, CycleProtocol}
  }

  /** `later` extends `j`: identities never change, and an entry that became an RTT never changes. */
  ghost predicate Extends(j: Journal, later: Journal) {
    && |j.sends| <= |later.sends|
    && forall i :: 0 <= i < |j.sends| ==>
                     && later.sends[i].token == j.sends[i].token && later.sends[i].hop == j.sends[i].hop
                     && later.sends[i].entry.seqNo == j.sends[i].entry.seqNo
                     && later.sends[i].entry.sent == j.sends[i].entry.sent
                     && (j.sends[i].entry.sample.Rtt? ==> later.sends[i] == j.sends[i])
  }

  lemma NoteExtends(j: Journal, ev: Event, now: real, out: seq<Command>)
    requires WellKept(j.sends) && !Resets(ev)
    ensures Extends(j, Note(j, ev, now, out))
  {
    hide HopLog;
  }

  lemma {:induction false} RttsAreFinal(s: State, j: Journal, inputs: seq<Input>)
    requires Shape(s) && Agrees(j, s)
    requires forall k :: 0 <= k < |inputs| ==> !Resets(inputs[k].ev)
    ensures Extends(j, RunFrom(s, j, inputs).1)
    decreases |inputs|
  {
    if inputs != [] {
      hide Handle, Note;
      var i := inputs[0];
      var (s', out) := Handle(s, i.ev, i.now, i.draws);
      var j' := Note(j, i.ev, i.now, out);
      HandleAgrees(j, s, i.ev, i.now, i.draws);
      NoteExtends(j, i.ev, i.now, out);
      RttsAreFinal(s', j', inputs[1..]);
    }
  }

  // ----- Counters -----

  lemma {:induction false} RttCountBound(log: seq<HistoryEntry>)
    ensures RttCount(log) <= |log|
    ensures log != [] && !log[|log| - 1].sample.Rtt? ==> RttCount(log) < |log|
  {
    if log != [] {
      RttCountBound(log[..|log| - 1]);
    }
  }

  /** At each hop the replies counted plus the probe in flight never exceed the probes sent. */
  lemma RepliesNeverExceedSends(j: Journal, s: State, h: nat)
    requires Shape(s) && Agrees(j, s) && h < MAX_HOST
    ensures var st := s.hops[h].stats;
            && 0 <= st.rtts.returned && st.transit in {0, 1} && st.rtts.returned + st.transit <= st.xmit
            && st.rtts.returned == RttCount(HopLog(j.sends, h)) && st.xmit == |HopLog(j.sends, h)|
  {
    assert HopAgrees(j, s.hops[h], h);
    RttCountBound(HopLog(j.sends, h));
  }

  /** Loss is a percentage in every reachable state, whatever was late, lost, failed or reset. */
  lemma LossIsAlwaysMeaningful(cfg: Config, target: IpAddr, local: Option<IpAddr>, inputs: seq<Input>, h: nat)
    requires h < MAX_HOST
    ensures var st := Reached(cfg, target, local, inputs).0.hops[h].stats;
            && 0 <= DroppedOf(st) <= st.xmit && 0 <= LossOf(st) <= 100_000
  {
    EveryRunAgrees(cfg, target, local, inputs);
    var (s, j) := Reached(cfg, target, local, inputs);
    RepliesNeverExceedSends(j, s, h);
    LossIsAPercentage(s.hops[h].stats);
  }

  // ----- Statistics -----

  /** RTTs the original can hold in an `i32`. */
  predicate FitsI32(i: Input) {
    i.ev.Answer? && i.ev.kind.Probe? ==> i.ev.kind.rtt < 0x8000_0000
  }

  ghost predicate HeardNonNegative(j: Journal) {
    forall k :: 0 <= k < |j.heard| ==> j.heard[k].rtt >= 0
  }

  lemma NoteHeard(j: Journal, i: Input, out: seq<Command>)
    requires HeardNonNegative(j) && FitsI32(i)
    ensures HeardNonNegative(Note(j, i.ev, i.now, out))
  {
  }

  lemma {:induction false} RunHeard(s: State, j: Journal, inputs: seq<Input>)
    requires Shape(s) && HeardNonNegative(j) && forall k :: 0 <= k < |inputs| ==> FitsI32(inputs[k])
    ensures HeardNonNegative(RunFrom(s, j, inputs).1)
    decreases |inputs|
  {
    if inputs != [] {
      hide Handle, Note;
      var i := inputs[0];
      var (s', out) := Handle(s, i.ev, i.now, i.draws);
      NoteHeard(j, i, out);
      RunHeard(s', Note(j, i.ev, i.now, out), inputs[1..]);
    }
  }

  lemma {:induction false} HopRttsNonNegative(heard: seq<Heard>, h: nat)
    requires forall k :: 0 <= k < |heard| ==> heard[k].rtt >= 0
    ensures NonNegative(HopRtts(heard, h))
  {
    if heard != [] {
      HopRttsNonNegative(heard[..|heard| - 1], h);
    }
  }

  /** In every run, the figures shown for a hop that has answered are coherent with exactly the
      round-trip times heard for it since the last reset. */
  lemma HopStatisticsAreCoherent(cfg: Config, target: IpAddr, local: Option<IpAddr>, inputs: seq<Input>, h: nat)
    requires h < MAX_HOST && forall k :: 0 <= k < |inputs| ==> FitsI32(inputs[k])
    ensures var (s, j) := Reached(cfg, target, local, inputs);
            s.hops[h].stats.rtts.returned > 0 ==> Coherent(s.hops[h].stats.rtts, HopRtts(j.heard, h))
  {
    EveryRunAgrees(cfg, target, local, inputs);
    var (s, j) := Reached(cfg, target, local, inputs);
    assert HopAgrees(j, s.hops[h], h);
    RunHeard(Init(cfg, target, local), BLANK, inputs);
    HopRttsNonNegative(j.heard, h);
    if HopRtts(j.heard, h) != [] {
      StatisticsAreCoherent(HopRtts(j.heard, h));
    }
  }

  // ----- Token numbering -----

  /** The token of a probe sent by this event, if one is. */
  function TokensSent(out: seq<Command>): seq<int> {
    if out != [] && out[0].SendProbe? then [out[0].token] else []
  }

  function RunTokens(s: State, inputs: seq<Input>): seq<int>
    requires Shape(s)
    decreases |inputs|
  {
    if inputs == [] then []
    else
      var (s', out) := Handle(s, inputs[0].ev, inputs[0].now, inputs[0].draws);
      TokensSent(out) + RunTokens(s', inputs[1..])
  }

  const TOKEN_COUNT := 32536

  lemma AdvanceCycles(sequence: int, k: nat)
    requires sequence == MIN_SEQUENCE + k % TOKEN_COUNT
    ensures Advance(sequence) == MIN_SEQUENCE + (k + 1) % TOKEN_COUNT
  {
    var q, r := k / TOKEN_COUNT, k % TOKEN_COUNT;
    if r == TOKEN_COUNT - 1 {
      assert k + 1 == TOKEN_COUNT * (q + 1);
    } else {
      assert k + 1 == TOKEN_COUNT * q + (r + 1);
    }
  }

  lemma HandleTokens(s: State, i: Input)
    requires Shape(s)
    ensures var (s', out) := Handle(s, i.ev, i.now, i.draws);
            && (TokensSent(out) == [] ==> s'.nextSequence == s.nextSequence)
            && (TokensSent(out) != [] ==> TokensSent(out) == [s.nextSequence]
                                          && s'.nextSequence == Advance(s.nextSequence))
  {
    hide HopAfterSend, BatchEnd, HopAfterReply, EndTransit, Advance, PingParams;
  }

  /** The `k`-th token is the one `sent + k` probes after the first. */
  ghost predicate CyclesFrom(tokens: seq<int>, sent: nat) {
    forall k :: 0 <= k < |tokens| ==> tokens[k] == MIN_SEQUENCE + (sent + k) % TOKEN_COUNT
  }

  lemma CyclesFromCons(token: int, tokens: seq<int>, sent: nat)
    requires token == MIN_SEQUENCE + sent % TOKEN_COUNT && CyclesFrom(tokens, sent + 1)
    ensures CyclesFrom([token] + tokens, sent)
  {
    var all := [token] + tokens;
    forall k | 0 <= k < |all| ensures all[k] == MIN_SEQUENCE + (sent + k) % TOKEN_COUNT {
      if k > 0 {
        assert (sent + 1) + (k - 1) == sent + k;
      }
    }
  }

  /** Tokens are handed out in order and wrap after 32536 probes; no reset, pause or action disturbs
      the count. */
  lemma {:induction false} TokensCycle(s: State, inputs: seq<Input>, sent: nat)
    requires Shape(s) && s.nextSequence == MIN_SEQUENCE + sent % TOKEN_COUNT
    ensures CyclesFrom(RunTokens(s, inputs), sent)
    decreases |inputs|
  {
    if inputs != [] {
      hide Handle, Advance, Shape, CyclesFrom;
      var (s', out) := Handle(s, inputs[0].ev, inputs[0].now, inputs[0].draws);
      HandleTokens(s, inputs[0]);
      AdvanceCycles(s.nextSequence, sent);
      var rest := RunTokens(s', inputs[1..]);
      if TokensSent(out) == [] {
        TokensCycle(s', inputs[1..], sent);
        assert [] + rest == rest;
      } else {
        TokensCycle(s', inputs[1..], sent + 1);
        CyclesFromCons(s.nextSequence, rest, sent);
      }
    }
  }
}
