// What one turn of the helper's main loop does, and what follows for whole runs. The outside world
// is a script: what arrived before each turn, how connecting sockets stand, what one read brings,
// how every write ends.
module Turns {
  import opened Common
  import opened Requests
  import opened Mpls
  import opened Responses
  import opened Construct
  import opened ProbeTables
  import opened Deconstruct
  import opened ProbeIdentity
  import opened UnixBackend
  import opened CommandBuffers
  import opened Helpers

  // ----- The outside world -----

  datatype WriteOutcome = Wrote(n: nat) | Interrupted | WouldBlock | WriteFailed

  datatype WriteResult = Complete | Gone | StillBlocked

  datatype Arrival = Arrival(parsed: Parsed, version: byte, from: IpAddr)

  datatype ReadOutcome = Eof | Bytes(data: seq<byte>) | Again | Broken

  /** `writes(k)` is how the attempts to write reply `k` of the turn end. */
  datatype Turn = Turn(now: int, arrivals: seq<Arrival>, fatal: bool, oracle: Oracle, read: ReadOutcome,
                       sends: nat -> SendEnv, writes: nat -> seq<WriteOutcome>, flushed: bool)

  ghost predicate PlausibleTurn(t: Turn) {
    && (t.read.Bytes? ==> t.read.data != [])
    && forall k :: Plausible(t.sends(k))
  }

  datatype Status = Running | Finished | ClientGone | Blocked | Fatal | ReadError

  // ----- Replies and tokens -----

  function AsText(bytes: seq<byte>): string {
    seq(|bytes|, i requires 0 <= i < |bytes| => bytes[i] as char)
  }

  /** The token each event of the command stream has to be answered under. */
  function EventToken(e: BufferEvent): i32 {
    match e
    case LineOf(bytes) => LineToken(AsText(bytes))
    case Overflow => 0
  }

  function EventTokens(es: seq<BufferEvent>): (r: seq<i32>)
    ensures |r| == |es|
  {
    seq(|es|, i requires 0 <= i < |es| => EventToken(es[i]))
  }

  lemma EventTokensConcat(a: seq<BufferEvent>, b: seq<BufferEvent>)
    ensures EventTokens(a + b) == EventTokens(a) + EventTokens(b)
  {
  }

  lemma ResponseTokensConcat(a: seq<Response>, b: seq<Response>)
    ensures ResponseTokens(a + b) == ResponseTokens(a) + ResponseTokens(b)
  {
  }

  /** Replies given plus probes still owed one. */
  function Accounted(out: seq<Response>, probes: seq<LiveProbe>): multiset<i32> {
    multiset(ResponseTokens(out)) + multiset(Tokens(probes))
  }

  lemma AccountedConcat(a: seq<Response>, b: seq<Response>, probes: seq<LiveProbe>)
    ensures Accounted(a + b, probes) == multiset(ResponseTokens(a)) + Accounted(b, probes)
  {
    ResponseTokensConcat(a, b);
  }

  lemma AccountedNothing(probes: seq<LiveProbe>)
    ensures Accounted([], probes) == multiset(Tokens(probes))
  {
    assert ResponseTokens([]) == [];
  }

  lemma AccountedRemove(out: seq<Response>, probes: seq<LiveProbe>, i: nat, r: Response)
    requires i < |probes| && r.token == probes[i].token
    ensures Accounted(out + [r], SwapRemove(probes, i)) == Accounted(out, probes)
  {
    ResponseTokensPush(out, r);
    TokensSwapRemove(probes, i);
  }

  lemma TokensConcat(a: seq<LiveProbe>, b: seq<LiveProbe>)
    ensures Tokens(a + b) == Tokens(a) + Tokens(b)
  {
  }

  lemma TokensInsert(a: seq<LiveProbe>, x: LiveProbe, b: seq<LiveProbe>)
    ensures multiset(Tokens(a + [x] + b)) == multiset(Tokens(a + b)) + multiset{x.token}
  {
    assert Tokens(a + [x] + b) == Tokens(a) + [x.token] + Tokens(b);
    assert Tokens(a + b) == Tokens(a) + Tokens(b);
  }

  lemma TokensOfMultiset(a: seq<LiveProbe>, b: seq<LiveProbe>)
    requires multiset(a) == multiset(b)
    ensures multiset(Tokens(a)) == multiset(Tokens(b))
  {
    if a != [] {
      var x := a[|a| - 1];
      assert x in multiset(b);
      var i :| 0 <= i < |b| && b[i] == x;
      var a', b' := a[..|a| - 1], b[..i] + b[i + 1..];
      assert a == a' + [x];
      assert b == b[..i] + [x] + b[i + 1..];
      assert multiset(a') == multiset(a) - multiset{x} == multiset(b) - multiset{x} == multiset(b');
      TokensOfMultiset(a', b');
      TokensPush(a', x);
      TokensInsert(b[..i], x, b[i + 1..]);
    } else {
      assert |multiset(b)| == |b|;
    }
  }

  // ----- One turn -----

  /** Between turns: the table, the partial line, whether input is still open. */
  datatype World = World(probes: seq<LiveProbe>, buf: seq<byte>, open: bool)

  const START := World([], [], true)

  /** What happened in a turn: the replies of its phases, the table after each, the bytes read. */
  datatype TurnLog = TurnLog(received: seq<Response>, mid: seq<LiveProbe>, data: seq<byte>,
                             expired: seq<Response>, left: seq<LiveProbe>, results: seq<LineResult>,
                             out: seq<Response>, after: World)

  /** Every parsed message in order: matched and answered, or dropped. */
  function DeliverAll(probes: seq<LiveProbe>, arrivals: seq<Arrival>, icmpId: u16, now: int)
    : (seq<LiveProbe>, seq<Response>)
  {
    if arrivals == [] then (probes, [])
    else
      var n := |arrivals| - 1;
      var (table, out) := DeliverAll(probes, arrivals[..n], icmpId, now);
      var a := arrivals[n];
      match MatchReply(table, a.parsed, a.version, icmpId)
      case None => (table, out)
      case Some((i, word)) => (SwapRemove(table, i), out + [ProbeReply(table[i], word, a.from, now, a.parsed.mpls)])
  }

  /** `receive`: deliveries, then the completed streams unless an error was fatal. */
  ghost predicate Received(probes: seq<LiveProbe>, t: Turn, icmpId: u16, mid: seq<LiveProbe>, received: seq<Response>) {
    var (table, out) := DeliverAll(probes, t.arrivals, icmpId, t.now);
    if t.fatal then mid == table && received == out
    else received == out + Answers(table, t.oracle, t.now) && multiset(mid) == Kept(table, NotDone(t.oracle))
  }

  /** `expire`: the overdue probes, and only they, get a `no-reply`. */
  ghost predicate Swept(mid: seq<LiveProbe>, now: int, left: seq<LiveProbe>, expired: seq<Response>) {
    && multiset(left) == Kept(mid, InTime(now))
    && (forall i :: 0 <= i < |expired| ==> expired[i].kind == Bare(NoReply))
    && Accounted(expired, left) == multiset(Tokens(mid))
  }

  function RepliesOf(results: seq<LineResult>): seq<Response> {
    if results == [] then []
    else
      var n := |results| - 1;
      RepliesOf(results[..n]) + match results[n] case Answered(r) => [r] case Launching(_) => []
  }

  function LaunchesOf(results: seq<LineResult>): seq<LaunchRecord> {
    if results == [] then []
    else
      var n := |results| - 1;
      LaunchesOf(results[..n]) + match results[n] case Answered(_) => [] case Launching(l) => [l]
  }

  function ProbesOf(launches: seq<LaunchRecord>): (r: seq<LiveProbe>)
    ensures |r| == |launches|
  {
    seq(|launches|, i requires 0 <= i < |launches| => launches[i].probe)
  }

  /** The lines of one read in order: every result fits its line and the probes then outstanding. */
  ghost predicate Dispatched(h: Helper, lines: seq<seq<byte>>, t: Turn, live: nat, results: seq<LineResult>) {
    && |results| == |lines|
    && forall k :: 0 <= k < |lines| ==>
                     h.LineOk(AsText(lines[k]), live + |LaunchesOf(results[..k])|, t.now, t.sends(k), results[k])
  }

  const OVERFLOW_REPORT := Response(0, Bare(CommandBufferOverflow))

  /** The turn ends the loop before anything is read into the buffer. */
  predicate Stops(w: World, t: Turn) {
    t.fatal || (w.open && t.read.Broken?)
  }

  /** The bytes taken from the input: what was there, as far as there was room. */
  function Taken(w: World, t: Turn): seq<byte>
    requires |w.buf| <= CAPACITY
  {
    if w.open && t.read.Bytes? then t.read.data[..Min(CAPACITY - |w.buf|, |t.read.data|)] else []
  }

  function OverflowReport(input: seq<byte>): seq<Response> {
    if |CutLines(input).1| >= CAPACITY then [OVERFLOW_REPORT] else []
  }

  /** One turn, from the world before it to its log. */
  ghost predicate TurnOk(h: Helper, w: World, t: Turn, g: TurnLog) {
    && Partial(w.buf)
    && Received(w.probes, t, h.icmpId, g.mid, g.received)
    && if Stops(w, t) then g == TurnLog(g.received, g.mid, [], [], g.mid, [], g.received, World(g.mid, w.buf, w.open))
       else
         && g.data == Taken(w, t)
         && Swept(g.mid, t.now, g.left, g.expired)
         && Dispatched(h, CutLines(w.buf + g.data).0, t, |g.left|, g.results)
         && g.out == g.received + (g.expired + RepliesOf(g.results) + OverflowReport(w.buf + g.data))
         && g.after == World(g.left + ProbesOf(LaunchesOf(g.results)), CallEvents(w.buf + g.data).1,
                             w.open && !t.read.Eof?)
  }

  // ----- What replies say -----

  /** Reply `r` speaks of arrival `a`, which matched a probe of the table: who sent it, what it was,
      the labels it carried, and the time since the probe left. */
  predicate SpeaksOf(r: Response, a: Arrival, probes: seq<LiveProbe>, now: int) {
    exists i :: 0 <= i < |probes| && SaysOf(r, probes[i], ResultWord(a.parsed.kind, a.version), a.from, now, a.parsed.mpls)
  }

  /** Every reply to deliveries speaks of one arrival, in the order of arrival. */
  lemma {:induction false} RepliesNameSenders(probes: seq<LiveProbe>, arrivals: seq<Arrival>, icmpId: u16, now: int)
      returns (at: seq<nat>)
    ensures var out := DeliverAll(probes, arrivals, icmpId, now).1;
            && |at| == |out|
            && (forall k :: 0 <= k < |at| ==> at[k] < |arrivals| && SpeaksOf(out[k], arrivals[at[k]], probes, now))
            && forall k, l :: 0 <= k < l < |at| ==> at[k] < at[l]
  {
    hide SaysOf, MatchIndex, SwapRemove, SpeaksOf;
    at := [];
    if arrivals != [] {
      var n := |arrivals| - 1;
      at := RepliesNameSenders(probes, arrivals[..n], icmpId, now);
      var (table, out) := DeliverAll(probes, arrivals[..n], icmpId, now);
      var a := arrivals[n];
      var m := MatchReply(table, a.parsed, a.version, icmpId);
      if m.Some? {
        NewReplySpeaks(probes, arrivals[..n], icmpId, now, a, m.value.0);
        at := at + [n];
      }
    }
  }

  /** Messages that name no live probe change nothing and are not answered. */
  lemma {:induction false} ForeignArrivalsAreIgnored(probes: seq<LiveProbe>, arrivals: seq<Arrival>, icmpId: u16, now: int)
    requires forall k, i :: 0 <= k < |arrivals| && 0 <= i < |probes| ==> !Names(arrivals[k].parsed, probes[i], icmpId)
    ensures DeliverAll(probes, arrivals, icmpId, now) == (probes, [])
  {
    hide Names, MatchIndex;
    if arrivals != [] {
      var n := |arrivals| - 1;
      ForeignArrivalsAreIgnored(probes, arrivals[..n], icmpId, now);
      ForeignMessageIsIgnored(probes, arrivals[n].parsed, arrivals[n].version, icmpId);
    }
  }

  lemma NewReplySpeaks(probes: seq<LiveProbe>, arrivals: seq<Arrival>, icmpId: u16, now: int, a: Arrival, i: nat)
    requires i < |DeliverAll(probes, arrivals, icmpId, now).0|
    ensures SpeaksOf(ProbeReply(DeliverAll(probes, arrivals, icmpId, now).0[i], ResultWord(a.parsed.kind, a.version), a.from,
                                now, a.parsed.mpls),
                     a, probes, now)
  {
    var table := DeliverAll(probes, arrivals, icmpId, now).0;
    DeliverAllIsPart(probes, arrivals, icmpId, now);
    hide DeliverAll, SaysOf;
    assert table[i] in multiset(table) && table[i] in multiset(probes);
    var j :| 0 <= j < |probes| && probes[j] == table[i];
    ProbeReplyAnswers(table[i], ResultWord(a.parsed.kind, a.version), a.from, now, a.parsed.mpls);
  }

  /** A turn that ends the loop early only answers what arrived. */
  lemma StoppedTurnOnlyReceives(h: Helper, w: World, t: Turn, g: TurnLog)
    requires TurnOk(h, w, t, g) && (t.fatal || (w.open && t.read.Broken?))
    ensures g.data == [] && g.results == [] && g.out == g.received
    ensures g.after.buf == w.buf && g.after.open == w.open && g.after.probes == g.mid
    ensures t.fatal ==> g.received == DeliverAll(w.probes, t.arrivals, h.icmpId, t.now).1
  {
    hide DeliverAll;
  }

  /** Unless an error was fatal, a stream probe that outlives the deliveries of a turn is answered in it
      with what its socket said, or still there after it. */
  lemma StreamsAreHeardEveryTurn(h: Helper, w: World, t: Turn, g: TurnLog, i: nat)
    requires TurnOk(h, w, t, g) && !t.fatal && i < |DeliverAll(w.probes, t.arrivals, h.icmpId, t.now).0|
    ensures var p := DeliverAll(w.probes, t.arrivals, h.icmpId, t.now).0[i];
            if p.stream.None? || t.oracle(p.stream.value).Pending? then p in g.mid
            else exists r :: r in g.received && Tells(r, p, t.oracle(p.stream.value), t.now)
  {
    var table := DeliverAll(w.probes, t.arrivals, h.icmpId, t.now).0;
    StreamsAreAnswered(table, t.oracle, t.now, i);
    hide DeliverAll, Answers, Filter, Tells, Swept, Dispatched, CutLines, CallEvents, OverflowReport, LaunchesOf, RepliesOf;
    var p := table[i];
    if p.stream.None? || t.oracle(p.stream.value).Pending? {
      assert p in multiset(Filter(table, NotDone(t.oracle))) && p in multiset(g.mid);
    } else {
      var r :| r in Answers(table, t.oracle, t.now) && Tells(r, p, t.oracle(p.stream.value), t.now);
      assert r in g.received;
    }
  }

  /** Every other turn reads what there is, up to 4095 bytes with those already held; input closes at
      its end and nowhere else; nothing overdue is left behind; and the replies come in the order of
      the phases. */
  lemma FullTurnReadsAndSweeps(h: Helper, w: World, t: Turn, g: TurnLog)
    requires TurnOk(h, w, t, g) && !t.fatal && !(w.open && t.read.Broken?)
    ensures |w.buf| < 4095
    ensures if w.open && t.read.Bytes? then g.data <= t.read.data && |g.data| == Min(4095 - |w.buf|, |t.read.data|)
            else g.data == []
    ensures g.after.open == (w.open && !t.read.Eof?)
    ensures forall i :: 0 <= i < |g.left| ==> g.left[i] in g.mid && g.left[i].timeoutAt >= t.now
    ensures forall i :: 0 <= i < |g.mid| && g.mid[i].timeoutAt >= t.now ==> g.mid[i] in g.left
    ensures g.received + g.expired <= g.out && g.left <= g.after.probes
  {
    hide Received, Swept, Dispatched, RepliesOf, LaunchesOf, ProbesOf, CutLines, CallEvents, OverflowReport;
    SweptLeaves(g.mid, t.now, g.left, g.expired);
    assert g.out == (g.received + g.expired) + (RepliesOf(g.results) + OverflowReport(w.buf + g.data));
  }

  lemma SweptLeaves(mid: seq<LiveProbe>, now: int, left: seq<LiveProbe>, expired: seq<Response>)
    requires Swept(mid, now, left, expired)
    ensures forall i :: 0 <= i < |left| ==> left[i] in mid && left[i].timeoutAt >= now
    ensures forall i :: 0 <= i < |mid| && mid[i].timeoutAt >= now ==> mid[i] in left
  {
    FilterHolds(mid, InTime(now));
    hide Filter, Accounted;
    forall i | 0 <= i < |left| ensures left[i] in mid && left[i].timeoutAt >= now {
      assert left[i] in multiset(left) && left[i] in multiset(Filter(mid, InTime(now)));
    }
    forall i | 0 <= i < |mid| && mid[i].timeoutAt >= now ensures mid[i] in left {
      assert mid[i] in Filter(mid, InTime(now));
      assert mid[i] in multiset(Filter(mid, InTime(now))) && mid[i] in multiset(left);
    }
  }

  lemma {:induction false} FilterHolds<T>(s: seq<T>, keep: T -> bool)
    ensures forall x :: x in Filter(s, keep) <==> x in s && keep(x)
  {
    if s != [] {
      FilterHolds(s[..|s| - 1], keep);
      assert s == s[..|s| - 1] + [s[|s| - 1]];
    }
  }

  // ----- Accounting for one turn -----

  lemma {:induction false} DeliverAllAccounts(probes: seq<LiveProbe>, arrivals: seq<Arrival>, icmpId: u16, now: int)
    ensures var (table, out) := DeliverAll(probes, arrivals, icmpId, now);
            Accounted(out, table) == multiset(Tokens(probes))
  {
    hide Accounted, MatchReply;
    if arrivals == [] {
      AccountedNothing(probes);
    } else {
      var n := |arrivals| - 1;
      DeliverAllAccounts(probes, arrivals[..n], icmpId, now);
      var (table, out) := DeliverAll(probes, arrivals[..n], icmpId, now);
      var a := arrivals[n];
      var m := MatchReply(table, a.parsed, a.version, icmpId);
      if m.Some? {
        AccountedRemove(out, table, m.value.0, ProbeReply(table[m.value.0], m.value.1, a.from, now, a.parsed.mpls));
      }
    }
  }

  lemma StreamsAccounted(out: seq<Response>, was: seq<LiveProbe>, table: seq<LiveProbe>, oracle: Oracle, now: int)
    requires multiset(table) == Kept(was, NotDone(oracle))
    ensures Accounted(out + Answers(was, oracle, now), table) == Accounted(out, was)
  {
    AnswersConserveTokens(was, oracle, now);
    TokensOfMultiset(table, Filter(was, NotDone(oracle)));
    hide Answers, Filter;
    ResponseTokensConcat(out, Answers(was, oracle, now));
  }

  lemma ReceivedAccounts(probes: seq<LiveProbe>, t: Turn, icmpId: u16, mid: seq<LiveProbe>, received: seq<Response>)
    requires Received(probes, t, icmpId, mid, received)
    ensures Accounted(received, mid) == multiset(Tokens(probes))
  {
    DeliverAllAccounts(probes, t.arrivals, icmpId, t.now);
    hide Accounted, DeliverAll, Answers, Kept;
    if !t.fatal {
      var (table, out) := DeliverAll(probes, t.arrivals, icmpId, t.now);
      StreamsAccounted(out, table, mid, t.oracle, t.now);
    }
  }

  lemma ProbesOfPush(launches: seq<LaunchRecord>, l: LaunchRecord)
    ensures ProbesOf(launches + [l]) == ProbesOf(launches) + [l.probe]
  {
  }

  /** The replies and probes that results stand for. */
  function ResultTokens(results: seq<LineResult>): multiset<i32> {
    Accounted(RepliesOf(results), ProbesOf(LaunchesOf(results)))
  }

  lemma ResultTokensPush(results: seq<LineResult>)
    requires results != []
    ensures ResultTokens(results) == ResultTokens(results[..|results| - 1]) + multiset{ResultTokenOf(results[|results| - 1])}
  {
    var n := |results| - 1;
    var replies, launches := RepliesOf(results[..n]), LaunchesOf(results[..n]);
    match results[n] {
      case Answered(r) =>
        ResponseTokensPush(replies, r);
        assert launches + [] == launches;
      case Launching(l) =>
        ProbesOfPush(launches, l);
        TokensPush(ProbesOf(launches), l.probe);
        assert replies + [] == replies;
    }
    hide RepliesOf, LaunchesOf, ProbesOf, Tokens, ResponseTokens;
  }

  lemma DispatchedButLast(h: Helper, lines: seq<seq<byte>>, t: Turn, live: nat, results: seq<LineResult>)
    requires Dispatched(h, lines, t, live, results) && lines != []
    ensures var n := |lines| - 1;
            && Dispatched(h, lines[..n], t, live, results[..n])
            && h.LineOk(AsText(lines[n]), live + |LaunchesOf(results[..n])|, t.now, t.sends(n), results[n])
  {
    hide Helper.LineOk, LaunchesOf, AsText;
    var n := |lines| - 1;
    assert forall k :: 0 <= k < n ==> results[..n][..k] == results[..k];
  }

  lemma {:induction false} DispatchedAccounts(h: Helper, lines: seq<seq<byte>>, t: Turn, live: nat,
                                              results: seq<LineResult>)
    requires Dispatched(h, lines, t, live, results)
    ensures ResultTokens(results) == multiset(EventTokens(LineEvents(lines)))
  {
    hide Helper.LineOk, ResultTokens, EventTokens, LineEvents, LaunchesOf, AsText, LineToken, ResultTokenOf;
    if lines == [] {
      NothingDispatched();
    } else {
      var n := |lines| - 1;
      DispatchedButLast(h, lines, t, live, results);
      DispatchedAccounts(h, lines[..n], t, live, results[..n]);
      ResultTokensPush(results);
      h.ResultToken(AsText(lines[n]), live + |LaunchesOf(results[..n])|, t.now, t.sends(n), results[n]);
      LineTokensPush(lines);
    }
  }

  lemma NothingDispatched()
    ensures ResultTokens([]) == multiset{} && EventTokens(LineEvents([])) == []
  {
    assert ProbesOf([]) == [] && Tokens([]) == [] && ResponseTokens([]) == [];
  }

  lemma LineTokensPush(lines: seq<seq<byte>>)
    requires lines != []
    ensures multiset(EventTokens(LineEvents(lines)))
            == multiset(EventTokens(LineEvents(lines[..|lines| - 1]))) + multiset{LineToken(AsText(lines[|lines| - 1]))}
  {
    var n := |lines| - 1;
    assert LineEvents(lines) == LineEvents(lines[..n]) + [LineOf(lines[n])];
    EventTokensConcat(LineEvents(lines[..n]), [LineOf(lines[n])]);
    assert EventTokens([LineOf(lines[n])]) == [LineToken(AsText(lines[n]))];
  }

  lemma PhaseAccounted(first: seq<Response>, middle: seq<LiveProbe>, second: seq<Response>, end: seq<LiveProbe>,
                       more: multiset<i32>, was: multiset<i32>)
    requires Accounted(first, middle) == was
    requires Accounted(second, end) == multiset(Tokens(middle)) + more
    ensures Accounted(first + second, end) == was + more
  {
    AccountedConcat(first, second, end);
    hide Tokens, ResponseTokens;
  }

  lemma AccountedGrow(out: seq<Response>, left: seq<LiveProbe>, more: seq<LiveProbe>)
    ensures Accounted(out, left + more) == multiset(Tokens(left)) + Accounted(out, more)
  {
    TokensConcat(left, more);
  }

  lemma OverflowAccounted(out: seq<Response>, end: seq<LiveProbe>, input: seq<byte>)
    ensures var more := multiset(ResponseTokens(OverflowReport(input)));
            && Accounted(out + OverflowReport(input), end) == Accounted(out, end) + more
            && multiset(EventTokens(CallEvents(input).0)) == multiset(EventTokens(LineEvents(CutLines(input).0))) + more
  {
    var events := LineEvents(CutLines(input).0);
    ResponseTokensConcat(out, OverflowReport(input));
    if |CutLines(input).1| >= CAPACITY {
      EventTokensConcat(events, [Overflow]);
      assert EventTokens([Overflow]) == [0] == ResponseTokens([OVERFLOW_REPORT]);
    } else {
      assert ResponseTokens([]) == [];
    }
    hide CutLines;
  }

  /** Expiry, dispatch and overflow together owe what they found and what the lines ask for. */
  lemma SecondHalfAccounts(h: Helper, w: World, t: Turn, g: TurnLog)
    requires TurnOk(h, w, t, g) && !Stops(w, t)
    ensures Accounted(g.expired + RepliesOf(g.results) + OverflowReport(w.buf + g.data), g.after.probes)
            == multiset(Tokens(g.mid)) + multiset(EventTokens(CallEvents(w.buf + g.data).0))
  {
    hide Accounted, Tokens, RepliesOf, LaunchesOf, ProbesOf, CutLines, CallEvents, OverflowReport, EventTokens,
         Received, LineEvents;
    var input := w.buf + g.data;
    var events := multiset(EventTokens(LineEvents(CutLines(input).0)));
    var end := g.after.probes;
    DispatchedAccounts(h, CutLines(input).0, t, |g.left|, g.results);
    hide Dispatched;
    AccountedGrow(RepliesOf(g.results), g.left, ProbesOf(LaunchesOf(g.results)));
    PhaseAccounted(g.expired, g.left, RepliesOf(g.results), end, events, multiset(Tokens(g.mid)));
    OverflowAccounted(g.expired + RepliesOf(g.results), end, input);
  }

  /** Replies plus live probes after a turn are the live probes before it plus what the reference
      automaton, fed the bytes read, asks to be answered; and the partial line is the automaton's. */
  lemma TurnAccounts(h: Helper, w: World, t: Turn, g: TurnLog)
    requires TurnOk(h, w, t, g)
    ensures Partial(g.after.buf) && g.after.buf == Run(w.buf, g.data).1
    ensures Accounted(g.out, g.after.probes) == multiset(Tokens(w.probes)) + multiset(EventTokens(Run(w.buf, g.data).0))
  {
    RunStaysPartial(w.buf, g.data);
    ReceivedAccounts(w.probes, t, h.icmpId, g.mid, g.received);
    hide Accounted, Tokens, RepliesOf, LaunchesOf, ProbesOf, CutLines, CallEvents, OverflowReport, Received;
    if Stops(w, t) {
      assert Run(w.buf, []) == ([], w.buf) && EventTokens([]) == [];
    } else {
      CallIsRun(w.buf, g.data);
      SecondHalfAccounts(h, w, t, g);
      hide EventTokens, Run, Dispatched, Swept;
      PhaseAccounted(g.received, g.mid, g.expired + RepliesOf(g.results) + OverflowReport(w.buf + g.data),
                     g.after.probes, multiset(EventTokens(CallEvents(w.buf + g.data).0)), multiset(Tokens(w.probes)));
    }
  }

  // ----- Whole runs -----

  function WorldAfter(trace: seq<TurnLog>): World {
    if trace == [] then START else trace[|trace| - 1].after
  }

  /** Every turn follows from the world the turn before left behind. */
  ghost predicate ValidRun(h: Helper, script: seq<Turn>, trace: seq<TurnLog>) {
    && |trace| <= |script|
    && (trace == []
        || var n := |trace| - 1;
           ValidRun(h, script, trace[..n]) && TurnOk(h, WorldAfter(trace[..n]), script[n], trace[n]))
  }

  function AllOut(trace: seq<TurnLog>): seq<Response> {
    if trace == [] then [] else AllOut(trace[..|trace| - 1]) + trace[|trace| - 1].out
  }

  /** All bytes read from the input. */
  function Consumed(trace: seq<TurnLog>): seq<byte> {
    if trace == [] then [] else Consumed(trace[..|trace| - 1]) + trace[|trace| - 1].data
  }

  function AllLaunched(trace: seq<TurnLog>): seq<LaunchRecord> {
    if trace == [] then [] else AllLaunched(trace[..|trace| - 1]) + LaunchesOf(trace[|trace| - 1].results)
  }

  /** After every run: replies given plus live probes are, token for token, what the byte-at-a-time
      automaton makes of all bytes read. */
  lemma {:induction false} RunAccounts(h: Helper, script: seq<Turn>, trace: seq<TurnLog>)
    requires ValidRun(h, script, trace)
    ensures Partial(WorldAfter(trace).buf) && WorldAfter(trace).buf == Run([], Consumed(trace)).1
    ensures Accounted(AllOut(trace), WorldAfter(trace).probes) == multiset(EventTokens(Run([], Consumed(trace)).0))
  {
    if trace == [] {
      assert Run([], []) == ([], []) && EventTokens([]) == [] && ResponseTokens([]) == [] && Tokens([]) == [];
    } else {
      var n := |trace| - 1;
      RunAccounts(h, script, trace[..n]);
      TurnAccounts(h, WorldAfter(trace[..n]), script[n], trace[n]);
      hide TurnOk, ValidRun, Accounted;
      RunConcat([], Consumed(trace[..n]), trace[n].data);
      var before, now := Run([], Consumed(trace[..n])).0, Run(WorldAfter(trace[..n]).buf, trace[n].data).0;
      EventTokensConcat(before, now);
      PhaseAccounted(AllOut(trace[..n]), WorldAfter(trace[..n]).probes, trace[n].out, trace[n].after.probes,
                     multiset(EventTokens(now)), multiset(EventTokens(before)));
    }
  }

  /** Input ends only where a read says so. */
  lemma {:induction false} ClosedByEof(h: Helper, script: seq<Turn>, trace: seq<TurnLog>)
    requires ValidRun(h, script, trace) && !WorldAfter(trace).open
    ensures exists k :: 0 <= k < |trace| && script[k].read.Eof?
  {
    var n := |trace| - 1;
    if WorldAfter(trace[..n]).open {
      assert script[n].read.Eof?;
    } else {
      ClosedByEof(h, script, trace[..n]);
    }
  }

  // ----- What is live was launched -----

  predicate IsRecorded(p: LiveProbe, launches: seq<LaunchRecord>) {
    exists k :: 0 <= k < |launches| && launches[k].probe == p
  }

  predicate Recorded(probes: seq<LiveProbe>, launches: seq<LaunchRecord>) {
    forall i :: 0 <= i < |probes| ==> IsRecorded(probes[i], launches)
  }

  lemma {:induction false} KeptIsPart<T>(s: seq<T>, keep: T -> bool)
    ensures Kept(s, keep) <= multiset(s)
  {
    if s != [] {
      KeptIsPart(s[..|s| - 1], keep);
      assert s == s[..|s| - 1] + [s[|s| - 1]];
    }
  }

  lemma RecordedPart(probes: seq<LiveProbe>, part: seq<LiveProbe>, launches: seq<LaunchRecord>)
    requires Recorded(probes, launches) && multiset(part) <= multiset(probes)
    ensures Recorded(part, launches)
  {
    forall i | 0 <= i < |part| ensures IsRecorded(part[i], launches) {
      assert part[i] in multiset(part) && part[i] in multiset(probes);
      var j :| 0 <= j < |probes| && probes[j] == part[i];
    }
  }

  lemma {:induction false} DeliverAllIsPart(probes: seq<LiveProbe>, arrivals: seq<Arrival>, icmpId: u16, now: int)
    ensures multiset(DeliverAll(probes, arrivals, icmpId, now).0) <= multiset(probes)
  {
    if arrivals != [] {
      hide MatchReply, SwapRemove;
      var n := |arrivals| - 1;
      DeliverAllIsPart(probes, arrivals[..n], icmpId, now);
      var table := DeliverAll(probes, arrivals[..n], icmpId, now).0;
      var m := MatchReply(table, arrivals[n].parsed, arrivals[n].version, icmpId);
      if m.Some? {
        SwapRemoveMultiset(table, m.value.0);
      }
    }
  }

  lemma ReceivedIsPart(probes: seq<LiveProbe>, t: Turn, icmpId: u16, mid: seq<LiveProbe>, received: seq<Response>)
    requires Received(probes, t, icmpId, mid, received)
    ensures multiset(mid) <= multiset(probes)
  {
    DeliverAllIsPart(probes, t.arrivals, icmpId, t.now);
    hide DeliverAll, Kept;
    KeptIsPart(DeliverAll(probes, t.arrivals, icmpId, t.now).0, NotDone(t.oracle));
  }

  lemma RecordedGrow(left: seq<LiveProbe>, old_: seq<LaunchRecord>, new_: seq<LaunchRecord>)
    requires Recorded(left, old_)
    ensures Recorded(left + ProbesOf(new_), old_ + new_)
  {
    var probes, all := left + ProbesOf(new_), old_ + new_;
    forall i | 0 <= i < |probes| ensures IsRecorded(probes[i], all) {
      if i < |left| {
        assert IsRecorded(left[i], old_);
        var k :| 0 <= k < |old_| && old_[k].probe == left[i];
        assert all[k] == old_[k];
      } else {
        assert all[|old_| + i - |left|] == new_[i - |left|];
      }
    }
  }

  lemma TurnRecords(h: Helper, w: World, t: Turn, g: TurnLog, launches: seq<LaunchRecord>)
    requires TurnOk(h, w, t, g) && Recorded(w.probes, launches)
    ensures Recorded(g.after.probes, launches + LaunchesOf(g.results))
  {
    ReceivedIsPart(w.probes, t, h.icmpId, g.mid, g.received);
    hide Received, Recorded, Kept, LaunchesOf, ProbesOf, RepliesOf, CutLines, CallEvents, OverflowReport, Dispatched;
    RecordedPart(w.probes, g.mid, launches);
    if Stops(w, t) {
      NothingLaunched();
      assert launches + [] == launches;
    } else {
      KeptIsPart(g.mid, InTime(t.now));
      RecordedPart(g.mid, g.left, launches);
      RecordedGrow(g.left, launches, LaunchesOf(g.results));
    }
  }

  lemma NothingLaunched()
    ensures LaunchesOf([]) == []
  {
  }

  lemma {:induction false} LaunchesCarry(h: Helper, lines: seq<seq<byte>>, t: Turn, live: nat, results: seq<LineResult>)
    requires Dispatched(h, lines, t, live, results)
    ensures forall k :: 0 <= k < |LaunchesOf(results)| ==> h.Carries(LaunchesOf(results)[k])
  {
    if results != [] {
      hide Helper.Carries, Helper.Reply, AsText;
      var n := |lines| - 1;
      DispatchedButLast(h, lines, t, live, results);
      LaunchesCarry(h, lines[..n], t, live, results[..n]);
    }
  }

  lemma TurnCarries(h: Helper, w: World, t: Turn, g: TurnLog)
    requires TurnOk(h, w, t, g)
    ensures forall k :: 0 <= k < |LaunchesOf(g.results)| ==> h.Carries(LaunchesOf(g.results)[k])
  {
    NothingLaunched();
    hide Received, Swept, LaunchesOf, CallEvents, OverflowReport;
    if !Stops(w, t) {
      LaunchesCarry(h, CutLines(w.buf + g.data).0, t, |g.left|, g.results);
    }
  }

  /** After every run each live probe is, unaltered, one that was launched, and the bytes sent for it
      carry its identity. */
  lemma {:induction false} LiveProbesWereLaunched(h: Helper, script: seq<Turn>, trace: seq<TurnLog>)
    requires ValidRun(h, script, trace)
    ensures Recorded(WorldAfter(trace).probes, AllLaunched(trace))
    ensures forall k :: 0 <= k < |AllLaunched(trace)| ==> h.Carries(AllLaunched(trace)[k])
  {
    if trace != [] {
      var n := |trace| - 1;
      LiveProbesWereLaunched(h, script, trace[..n]);
      TurnRecords(h, WorldAfter(trace[..n]), script[n], trace[n], AllLaunched(trace[..n]));
      TurnCarries(h, WorldAfter(trace[..n]), script[n], trace[n]);
      hide TurnOk, Recorded;
    }
  }

  /** A router's error message about a launched probe: it quotes an IP header with the probe's
      addresses and at least the first eight bytes sent. */
  ghost predicate Quotes(l: LaunchRecord, e: seq<byte>, header: seq<byte>, t: seq<byte>, kind: IcmpKind) {
    && IsErrorHeader(e, l.params.ipVersion, kind)
    && IsIpHeader(header, l.params.ipVersion, ProtoNumber(l.probe.protocol, l.params.ipVersion), l.probe.local.ip,
                  l.probe.remote.ip)
    && |t| >= 8
    && if IsStream(l.probe.protocol) then Be16(t, 0) == l.probe.local.port else |l.wire| >= 8 && t[..8] == l.wire[..8]
  }

  /** In every state of every run: a live probe whose number is unique, quoted by a router, is found
      with the right word exactly when no fixed port shadows it. */
  lemma LiveProbeIsFoundIff(h: Helper, script: seq<Turn>, trace: seq<TurnLog>, i: nat, k: nat, e: seq<byte>,
                            header: seq<byte>, t: seq<byte>, kind: IcmpKind)
    requires ValidRun(h, script, trace) && i < |WorldAfter(trace).probes| && k < |AllLaunched(trace)|
    requires UniqueSequence(WorldAfter(trace).probes, i)
    requires AllLaunched(trace)[k].probe == WorldAfter(trace).probes[i]
    requires Quotes(AllLaunched(trace)[k], e, header, t, kind)
    ensures var l, probes := AllLaunched(trace)[k], WorldAfter(trace).probes;
            var version := l.params.ipVersion;
            && ParseIcmp(e + header + t, version).Some?
            && (MatchReply(probes, ParseIcmp(e + header + t, version).value, version, h.icmpId)
                == Some((i, ResultWord(kind, version)))
                <==> !Shadowed(probes, i, l.params, UdpSourcePortFromPid(h.pid)))
  {
    LiveProbesWereLaunched(h, script, trace);
    var l, probes := AllLaunched(trace)[k], WorldAfter(trace).probes;
    hide ValidRun, AllLaunched, WorldAfter, ParseIcmp, MatchIndex, IsErrorHeader, IsIpHeader, Shadowed, UniqueSequence;
    assert SentAs(probes[i], l.params, UdpSourcePortFromPid(h.pid), h.icmpId, t);
    hide SentAs;
    QuotedProbeIsFoundIff(probes, i, l.params, UdpSourcePortFromPid(h.pid), h.icmpId, e, header, t, kind);
  }
}
