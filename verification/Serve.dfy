// The main loop of the helper (lib.rs): its methods do what Turns says, turn after turn.
module Serve {
  import opened Common
  import opened Requests
  import opened Responses
  import opened ProbeTables
  import opened Deconstruct
  import opened UnixBackend
  import opened CommandBuffers
  import opened Helpers
  import opened Turns

  // ----- Writing (write_blocking) -----

  /** How many of `length` bytes get out, and how it ends. */
  function Attempt(length: nat, outcomes: seq<WriteOutcome>): (r: (nat, WriteResult))
    ensures r.0 <= length && (r.1.Complete? <==> r.0 == length)
    decreases |outcomes|
  {
    if length == 0 then (0, Complete)
    else if outcomes == [] then (0, StillBlocked)
    else
      match outcomes[0]
      case Wrote(n) =>
        if n == 0 then (0, Gone)
        else
          var k := Min(n, length);
          var (more, end) := Attempt(length - k, outcomes[1..]);
          (k + more, end)
      case Interrupted => Attempt(length, outcomes[1..])
      case WouldBlock => Attempt(length, outcomes[1..])
      case WriteFailed => (0, Gone)
  }

  /** `write_blocking`: the unwritten tail is retried, so nothing is lost or sent twice; a write of
      zero bytes or a hard error ends it. */
  method WriteBlocking(bytes: string, outcomes: seq<WriteOutcome>) returns (sent: string, r: WriteResult)
    ensures sent <= bytes && (|sent|, r) == Attempt(|bytes|, outcomes)
    ensures r.Complete? ==> sent == bytes
    ensures r.StillBlocked? ==> sent < bytes && forall i :: 0 <= i < |outcomes| ==> outcomes[i] !in {Wrote(0), WriteFailed}
    ensures r.Gone? ==> sent < bytes && exists i :: 0 <= i < |outcomes| && outcomes[i] in {Wrote(0), WriteFailed}
  {
    var rest := bytes;
    sent := [];
    var i := 0;
    assert outcomes[0..] == outcomes;
    while rest != []
      invariant 0 <= i <= |outcomes|
      invariant sent + rest == bytes
      invariant forall j :: 0 <= j < i ==> outcomes[j] !in {Wrote(0), WriteFailed}
      invariant var (more, end) := Attempt(|rest|, outcomes[i..]); (|sent| + more, end) == Attempt(|bytes|, outcomes)
      decreases |outcomes| - i
    {
      if i == |outcomes| {
        return sent, StillBlocked;
      }
      assert outcomes[i..][1..] == outcomes[i + 1..];
      match outcomes[i] {
        case Wrote(n) =>
          if n == 0 {
            return sent, Gone;
          }
          var k := Min(n, |rest|);
          sent := sent + rest[..k];
          rest := rest[k..];
        case Interrupted =>
        case WouldBlock =>
        case WriteFailed =>
          return sent, Gone;
      }
      i := i + 1;
    }
    r := Complete;
  }

  /** The bytes a series of attempts can take, up to the first that fails for good. */
  function Capacity(outcomes: seq<WriteOutcome>): nat {
    if outcomes == [] || outcomes[0] in {Wrote(0), WriteFailed} then 0
    else (if outcomes[0].Wrote? then outcomes[0].n else 0) + Capacity(outcomes[1..])
  }

  predicate FailsForGood(outcomes: seq<WriteOutcome>) {
    exists i :: 0 <= i < |outcomes| && outcomes[i] in {Wrote(0), WriteFailed}
  }

  /** As much gets out as the attempts can take; if that is not all, it is for a failure, or for lack
      of further attempts. */
  lemma {:induction false} AttemptWritesWhatFits(length: nat, outcomes: seq<WriteOutcome>)
    ensures Attempt(length, outcomes)
            == (Min(length, Capacity(outcomes)),
                if length <= Capacity(outcomes) then Complete
                else if FailsForGood(outcomes) then Gone
                else StillBlocked)
    decreases |outcomes|
  {
    if length > 0 && outcomes != [] {
      var rest := outcomes[1..];
      assert FailsForGood(outcomes) <==> outcomes[0] in {Wrote(0), WriteFailed} || FailsForGood(rest) by {
        if FailsForGood(rest) {
          var i :| 0 <= i < |rest| && rest[i] in {Wrote(0), WriteFailed};
          assert outcomes[i + 1] == rest[i];
        }
        if i :| 0 < i < |outcomes| && outcomes[i] in {Wrote(0), WriteFailed} {
          assert rest[i - 1] == outcomes[i];
        }
      }
      hide FailsForGood;
      match outcomes[0] {
        case Wrote(n) =>
          if n > 0 {
            AttemptWritesWhatFits(length - Min(n, length), rest);
          }
        case Interrupted => AttemptWritesWhatFits(length, rest);
        case WouldBlock => AttemptWritesWhatFits(length, rest);
        case WriteFailed =>
      }
    }
  }

  // ----- Writing the replies of a turn -----

  function Render(ip: IpText, out: seq<Response>): string {
    if out == [] then "" else ResponseText(ip, out[0]) + Render(ip, out[1..])
  }

  lemma {:induction false} RenderConcat(ip: IpText, a: seq<Response>, b: seq<Response>)
    ensures Render(ip, a + b) == Render(ip, a) + Render(ip, b)
  {
    hide ResponseText;
    if a == [] {
      assert a + b == b;
    } else {
      RenderConcat(ip, a[1..], b);
      assert (a + b)[1..] == a[1..] + b;
    }
  }

  /** What gets out of replies `k` onwards. After a fatal error the rest is tried even when one
      reply fails. */
  function Written(ip: IpText, out: seq<Response>, writes: nat -> seq<WriteOutcome>, k: nat, stubborn: bool)
    : (string, WriteResult)
    decreases |out| - k
  {
    if k >= |out| then ("", Complete)
    else
      var text := ResponseText(ip, out[k]);
      var (n, r) := Attempt(|text|, writes(k));
      if r.StillBlocked? || (r.Gone? && !stubborn) then (text[..n], r)
      else
        var (rest, end) := Written(ip, out, writes, k + 1, stubborn);
        (text[..n] + rest, end)
  }

  lemma {:induction false} AllWritten(ip: IpText, out: seq<Response>, writes: nat -> seq<WriteOutcome>, k: nat)
    requires k <= |out| && Written(ip, out, writes, k, false).1.Complete?
    ensures Written(ip, out, writes, k, false).0 == Render(ip, out[k..])
    decreases |out| - k
  {
    hide ResponseText;
    if k < |out| {
      AllWritten(ip, out, writes, k + 1);
      assert out[k..][1..] == out[k + 1..];
    }
  }

  /** As much of reply `k` as its attempts can take. */
  function PartOf(ip: IpText, out: seq<Response>, writes: nat -> seq<WriteOutcome>, k: nat): string
    requires k < |out|
  {
    ResponseText(ip, out[k])[..Min(|ResponseText(ip, out[k])|, Capacity(writes(k)))]
  }

  function PartsOf(ip: IpText, out: seq<Response>, writes: nat -> seq<WriteOutcome>, from: nat, to: nat): string
    requires from <= to <= |out|
    decreases |out| - from
  {
    if from == to then "" else PartOf(ip, out, writes, from) + PartsOf(ip, out, writes, from + 1, to)
  }

  predicate IsWhole(ip: IpText, out: seq<Response>, writes: nat -> seq<WriteOutcome>, k: nat)
    requires k < |out|
  {
    |ResponseText(ip, out[k])| <= Capacity(writes(k))
  }

  /** What gets out: replies from `k` up to `end`, each as far as its attempts go. All of them are tried
      unless writing ends early, which is at one that did not get out; before it only a stubborn writer
      leaves one incomplete. */
  lemma {:induction false} WhatGetsOut(ip: IpText, out: seq<Response>, writes: nat -> seq<WriteOutcome>, k: nat,
                                       stubborn: bool)
      returns (end: nat)
    requires k <= |out|
    ensures k <= end <= |out|
    ensures var (text, r) := Written(ip, out, writes, k, stubborn);
            && text == PartsOf(ip, out, writes, k, end)
            && (r.Complete? ==> end == |out|)
            && (!r.Complete? ==> end > k && !IsWhole(ip, out, writes, end - 1)
                                 && (if FailsForGood(writes(end - 1)) then r.Gone? && !stubborn else r.StillBlocked?))
            && forall j :: k <= j < (if r.Complete? then end else end - 1) ==>
                             IsWhole(ip, out, writes, j) || (stubborn && FailsForGood(writes(j)))
    decreases |out| - k
  {
    hide ResponseText, Attempt, Capacity, FailsForGood;
    end := k;
    if k < |out| {
      AttemptWritesWhatFits(|ResponseText(ip, out[k])|, writes(k));
      if !IsWhole(ip, out, writes, k) && !(stubborn && FailsForGood(writes(k))) {
        end := k + 1;
        assert PartsOf(ip, out, writes, k, end) == PartOf(ip, out, writes, k) + "";
      } else {
        end := WhatGetsOut(ip, out, writes, k + 1, stubborn);
      }
    }
  }

  method WriteReplies(ip: IpText, out: seq<Response>, writes: nat -> seq<WriteOutcome>, stubborn: bool)
    returns (text: string, r: WriteResult)
    ensures (text, r) == Written(ip, out, writes, 0, stubborn)
  {
    hide ResponseText, Attempt;
    text := "";
    ghost var all := Written(ip, out, writes, 0, stubborn);
    assert "" + all.0 == all.0;
    for k := 0 to |out|
      invariant var (rest, end) := Written(ip, out, writes, k, stubborn); (text + rest, end) == all
    {
      ghost var (rest, _) := Written(ip, out, writes, k + 1, stubborn);
      var line := EncodeResponse(ip, out[k]);
      var sent, end := WriteBlocking(line, writes(k));
      assert sent == line[..|sent|] && text + (sent + rest) == (text + sent) + rest;
      text := text + sent;
      if end.StillBlocked? || (end.Gone? && !stubborn) {
        return text, end;
      }
    }
    assert text + "" == text;
    r := Complete;
  }

  // ----- The phases of a turn -----

  /** `receive`: every parsed arrival in order; the stream sockets only if no error was fatal. */
  method Receive(helper: Helper, t: Turn) returns (out: seq<Response>)
    requires helper.table.Valid()
    modifies helper.table
    ensures helper.table.Valid()
    ensures Received(old(helper.table.probes), t, helper.icmpId, helper.table.probes, out)
    ensures Accounted(out, helper.table.probes) == multiset(Tokens(old(helper.table.probes)))
  {
    hide MatchReply, SwapRemove, ProbeReply, Answers, Kept, Accounted, Tokens;
    out := [];
    for k := 0 to |t.arrivals|
      invariant helper.table.Valid()
      invariant (helper.table.probes, out) == DeliverAll(old(helper.table.probes), t.arrivals[..k], helper.icmpId, t.now)
    {
      assert t.arrivals[..k + 1][..k] == t.arrivals[..k];
      var a := t.arrivals[k];
      out := UnixBackend.Deliver(helper.table, a.parsed, a.version, helper.icmpId, a.from, t.now, out);
    }
    assert t.arrivals[..|t.arrivals|] == t.arrivals;
    hide DeliverAll;
    if !t.fatal {
      ghost var inspected;
      out, inspected := UnixBackend.CheckStreams(helper.table, t.oracle, t.now, out);
    }
    ReceivedAccounts(old(helper.table.probes), t, helper.icmpId, helper.table.probes, out);
  }

  /** The lines of one read are dispatched in order. */
  method DispatchLines(helper: Helper, lines: seq<seq<byte>>, t: Turn)
    returns (out: seq<Response>, ghost results: seq<LineResult>)
    requires helper.table.Valid() && PlausibleTurn(t)
    modifies helper.table
    ensures helper.table.Valid()
    ensures Dispatched(helper, lines, t, |old(helper.table.probes)|, results) && out == RepliesOf(results)
    ensures helper.table.probes == old(helper.table.probes) + ProbesOf(LaunchesOf(results))
  {
    hide Helper.LineOk, AsText, Dispatched, RepliesOf, LaunchesOf, ProbesOf;
    out, results := [], [];
    ghost var live := |helper.table.probes|;
    DispatchStarts(helper, t, live);
    for k := 0 to |lines|
      invariant helper.table.Valid()
      invariant Dispatched(helper, lines[..k], t, live, results) && out == RepliesOf(results)
      invariant helper.table.probes == old(helper.table.probes) + ProbesOf(LaunchesOf(results))
    {
      ghost var before := results;
      var reply;
      ghost var r;
      reply, r := helper.DispatchLine(AsText(lines[k]), t.now, t.sends(k));
      out := out + reply;
      results := results + [r];
      DispatchGrows(helper, lines, k, t, live, before, r);
      ResultsGrow(before, r);
    }
    assert lines[..|lines|] == lines;
  }

  lemma DispatchStarts(h: Helper, t: Turn, live: nat)
    ensures Dispatched(h, [], t, live, []) && ProbesOf(LaunchesOf([])) == [] && RepliesOf([]) == []
  {
  }

  lemma ResultsGrow(results: seq<LineResult>, r: LineResult)
    ensures RepliesOf(results + [r]) == RepliesOf(results) + if r.Answered? then [r.reply] else []
    ensures ProbesOf(LaunchesOf(results + [r]))
            == ProbesOf(LaunchesOf(results)) + if r.Launching? then [r.launch.probe] else []
  {
    assert (results + [r])[..|results|] == results;
    if r.Launching? {
      ProbesOfPush(LaunchesOf(results), r.launch);
    }
    hide ProbesOf;
  }

  lemma DispatchGrows(h: Helper, lines: seq<seq<byte>>, k: nat, t: Turn, live: nat, results: seq<LineResult>, r: LineResult)
    requires k < |lines| && Dispatched(h, lines[..k], t, live, results)
    requires h.LineOk(AsText(lines[k]), live + |LaunchesOf(results)|, t.now, t.sends(k), r)
    ensures Dispatched(h, lines[..k + 1], t, live, results + [r])
  {
    hide Helper.LineOk, AsText, LaunchesOf;
    var all := results + [r];
    assert all[..k] == results;
    forall j | 0 <= j < k + 1
      ensures h.LineOk(AsText(lines[..k + 1][j]), live + |LaunchesOf(all[..j])|, t.now, t.sends(j), all[j])
    {
      if j < k {
        assert all[..j] == results[..j] && all[j] == results[j] && lines[..k + 1][j] == lines[..k][j];
      }
    }
  }

  /** Everything between the read and the write of one turn: expire, dispatch, overflow report. */
  method ExpireAndDispatch(helper: Helper, buffer: CommandBuffer, t: Turn)
    returns (out: seq<Response>, ghost expired: seq<Response>, ghost left: seq<LiveProbe>, ghost results: seq<LineResult>)
    requires helper.table.Valid() && PlausibleTurn(t)
    modifies helper.table, buffer
    ensures helper.table.Valid()
    ensures Swept(old(helper.table.probes), t.now, left, expired)
    ensures Dispatched(helper, CutLines(old(buffer.buf)).0, t, |left|, results)
    ensures helper.table.probes == left + ProbesOf(LaunchesOf(results))
    ensures buffer.buf == CallEvents(old(buffer.buf)).1
    ensures out == expired + RepliesOf(results) + OverflowReport(old(buffer.buf))
  {
    hide Tokens, ResponseTokens, CutLines, Dispatched, RepliesOf, LaunchesOf, ProbesOf, Kept;
    out := helper.table.Expire(t.now);
    expired, left := out, helper.table.probes;
    var lines, overflow := buffer.TakeLines();
    var replies;
    replies, results := DispatchLines(helper, lines, t);
    out := out + replies;
    if overflow {
      out := out + [OVERFLOW_REPORT];
    }
  }

  /** One turn of the loop up to the write, exactly as Turns has it. The read always has room, so
      reading nothing can only mean the end of the stream. */
  method TakeTurn(helper: Helper, buffer: CommandBuffer, pipeOpen: bool, t: Turn)
    returns (open: bool, out: seq<Response>, status: Status, ghost g: TurnLog)
    requires helper.table.Valid() && PlausibleTurn(t) && Partial(buffer.buf)
    modifies helper.table, buffer
    ensures helper.table.Valid()
    ensures TurnOk(helper, World(old(helper.table.probes), old(buffer.buf), pipeOpen), t, g)
    ensures g.out == out && g.after == World(helper.table.probes, buffer.buf, open)
    ensures status == if t.fatal then Fatal else if pipeOpen && t.read.Broken? then ReadError else Running
    ensures status == Running && pipeOpen && t.read.Bytes? ==> g.data != []
    ensures Partial(buffer.buf) && buffer.buf == Run(old(buffer.buf), g.data).1
    ensures Accounted(out, helper.table.probes)
            == multiset(Tokens(old(helper.table.probes))) + multiset(EventTokens(Run(old(buffer.buf), g.data).0))
  {
    hide Received, Swept, Dispatched, CutLines, CallEvents, RepliesOf, LaunchesOf, ProbesOf, OverflowReport, Accounted,
         Tokens, EventTokens, Run;
    open := pipeOpen;
    ghost var w := World(helper.table.probes, buffer.buf, pipeOpen);
    out := Receive(helper, t);
    ghost var received, mid := out, helper.table.probes;
    g := TurnLog(received, mid, [], [], mid, [], received, World(mid, w.buf, pipeOpen));
    if t.fatal {
      TurnAccounts(helper, w, t, g);
      return open, out, Fatal, g;
    }
    ghost var data: seq<byte> := [];
    if pipeOpen {
      var space := buffer.SpaceRemaining();
      assert space >= 1;
      match t.read {
        case Eof => open := false;
        case Bytes(bytes) =>
          var n := Min(space, |bytes|);
          buffer.Push(bytes[..n]);
          data := bytes[..n];
        case Again =>
        case Broken =>
          TurnAccounts(helper, w, t, g);
          return open, out, ReadError, g;
      }
    }
    assert buffer.buf == w.buf + data && data == Taken(w, t);
    var more;
    ghost var expired, left, results;
    more, expired, left, results := ExpireAndDispatch(helper, buffer, t);
    out := out + more;
    status := Running;
    g := TurnLog(received, mid, data, expired, left, results, out, World(helper.table.probes, buffer.buf, open));
    TurnAccounts(helper, w, t, g);
  }

  // ----- The loop -----

  /** How a turn leaves the loop: with an error, because the client is gone or does not read, because
      input has ended and nothing is owed; or not at all. */
  function Verdict(ip: IpText, w: World, t: Turn, g: TurnLog): Status {
    if w.open && !t.fatal && t.read.Broken? then ReadError
    else
      var r := Written(ip, g.out, t.writes, 0, t.fatal).1;
      if r.StillBlocked? then Blocked
      else if t.fatal then Fatal
      else if r.Gone? || !t.flushed then ClientGone
      else if !g.after.open && g.after.probes == [] then Finished
      else Running
  }

  /** What the client receives of a turn: nothing if the read failed. */
  function TurnText(ip: IpText, w: World, t: Turn, g: TurnLog): string {
    if w.open && !t.fatal && t.read.Broken? then "" else Written(ip, g.out, t.writes, 0, t.fatal).0
  }

  function VerdictAt(ip: IpText, script: seq<Turn>, trace: seq<TurnLog>, k: nat): Status
    requires k < |trace| <= |script|
  {
    Verdict(ip, WorldAfter(trace[..k]), script[k], trace[k])
  }

  /** The loop ran through exactly these turns: each but the last goes on, and the last decides. */
  ghost predicate RanTo(ip: IpText, script: seq<Turn>, trace: seq<TurnLog>, status: Status)
    requires |trace| <= |script|
  {
    && (forall k :: 0 <= k < |trace| - 1 ==> VerdictAt(ip, script, trace, k) == Running)
    && status == (if trace == [] then Running else VerdictAt(ip, script, trace, |trace| - 1))
    && (status == Running ==> |trace| == |script|)
  }

  function OutputOf(ip: IpText, script: seq<Turn>, trace: seq<TurnLog>): string
    requires |trace| <= |script|
  {
    if trace == [] then ""
    else
      var n := |trace| - 1;
      OutputOf(ip, script, trace[..n]) + TurnText(ip, WorldAfter(trace[..n]), script[n], trace[n])
  }

  /** Why a turn ends the loop, or does not. */
  lemma TurnEndsFor(ip: IpText, w: World, t: Turn, g: TurnLog)
    ensures match Verdict(ip, w, t, g)
            case ReadError => w.open && !t.fatal && t.read.Broken?
            case Fatal => t.fatal
            case Blocked => exists j :: 0 <= j < |g.out| && !IsWhole(ip, g.out, t.writes, j) && !FailsForGood(t.writes(j))
            case ClientGone =>
              !t.fatal
              && (!t.flushed
                  || exists j :: 0 <= j < |g.out| && !IsWhole(ip, g.out, t.writes, j) && FailsForGood(t.writes(j)))
            case Finished =>
              && !t.fatal && t.flushed && (forall j :: 0 <= j < |g.out| ==> IsWhole(ip, g.out, t.writes, j))
              && !g.after.open && g.after.probes == []
            case Running =>
              && !t.fatal && t.flushed && (forall j :: 0 <= j < |g.out| ==> IsWhole(ip, g.out, t.writes, j))
              && (g.after.open || g.after.probes != []) && !(w.open && t.read.Broken?)
  {
    hide Written, IsWhole, FailsForGood, PartsOf;
    var end := WhatGetsOut(ip, g.out, t.writes, 0, t.fatal);
  }

  /** A turn that goes on or ends well has written all its replies. */
  lemma GoodTurnWritesAll(ip: IpText, w: World, t: Turn, g: TurnLog)
    requires Verdict(ip, w, t, g) in {Running, Finished}
    ensures TurnText(ip, w, t, g) == Render(ip, g.out)
  {
    AllWritten(ip, g.out, t.writes, 0);
    assert g.out[0..] == g.out;
  }

  lemma RunStarts(h: Helper, ip: IpText, script: seq<Turn>)
    ensures ValidRun(h, script, []) && WorldAfter([]) == START && OutputOf(ip, script, []) == ""
  {
  }

  lemma TraceGrows(h: Helper, ip: IpText, script: seq<Turn>, trace: seq<TurnLog>, g: TurnLog)
    requires ValidRun(h, script, trace) && |trace| < |script|
    requires TurnOk(h, WorldAfter(trace), script[|trace|], g)
    ensures var all := trace + [g];
            && ValidRun(h, script, all) && WorldAfter(all) == g.after
            && (forall k :: 0 <= k < |trace| ==> VerdictAt(ip, script, all, k) == VerdictAt(ip, script, trace, k))
            && VerdictAt(ip, script, all, |trace|) == Verdict(ip, WorldAfter(trace), script[|trace|], g)
            && OutputOf(ip, script, all)
               == OutputOf(ip, script, trace) + TurnText(ip, WorldAfter(trace), script[|trace|], g)
  {
    hide TurnOk, Verdict, TurnText;
    var all := trace + [g];
    assert all[..|trace|] == trace;
    forall k | 0 <= k < |trace| ensures VerdictAt(ip, script, all, k) == VerdictAt(ip, script, trace, k) {
      assert all[..k] == trace[..k] && all[k] == trace[k];
    }
  }

  /** A run that goes on, or that ends well, has written everything it ever answered. */
  lemma {:induction false} GoodRunWritesAll(ip: IpText, script: seq<Turn>, trace: seq<TurnLog>)
    requires |trace| <= |script|
    requires forall k :: 0 <= k < |trace| ==> VerdictAt(ip, script, trace, k) in {Running, Finished}
    ensures OutputOf(ip, script, trace) == Render(ip, AllOut(trace))
  {
    hide Render, Verdict, TurnText;
    if trace == [] {
      NothingToRender(ip);
    } else {
      var n := |trace| - 1;
      forall k | 0 <= k < n ensures VerdictAt(ip, script, trace[..n], k) in {Running, Finished} {
        assert trace[..n][..k] == trace[..k] && VerdictAt(ip, script, trace, k) in {Running, Finished};
      }
      GoodRunWritesAll(ip, script, trace[..n]);
      assert VerdictAt(ip, script, trace, n) in {Running, Finished};
      GoodTurnWritesAll(ip, WorldAfter(trace[..n]), script[n], trace[n]);
      RenderConcat(ip, AllOut(trace[..n]), trace[n].out);
    }
  }

  lemma NothingToRender(ip: IpText)
    ensures Render(ip, []) == ""
  {
  }

  lemma FinishedOwesNothing(ip: IpText, w: World, t: Turn, g: TurnLog)
    requires Verdict(ip, w, t, g) == Finished
    ensures g.after.probes == [] && !g.after.open
  {
    hide Written;
  }

  lemma GoodEndHasWrittenAll(ip: IpText, script: seq<Turn>, trace: seq<TurnLog>, status: Status)
    requires |trace| <= |script| && RanTo(ip, script, trace, status) && status in {Running, Finished}
    ensures OutputOf(ip, script, trace) == Render(ip, AllOut(trace))
  {
    hide VerdictAt, OutputOf, Render, AllOut;
    forall k | 0 <= k < |trace| ensures VerdictAt(ip, script, trace, k) in {Running, Finished} {
      assert k < |trace| - 1 ==> VerdictAt(ip, script, trace, k) == Running;
    }
    GoodRunWritesAll(ip, script, trace);
  }

  /** A normal end owes nothing, and input has ended. */
  lemma NormalEnd(h: Helper, ip: IpText, script: seq<Turn>, trace: seq<TurnLog>)
    requires ValidRun(h, script, trace) && RanTo(ip, script, trace, Finished)
    ensures WorldAfter(trace).probes == [] && exists k :: 0 <= k < |trace| && script[k].read.Eof?
  {
    var n := |trace| - 1;
    FinishedOwesNothing(ip, WorldAfter(trace[..n]), script[n], trace[n]);
    ClosedByEof(h, script, trace);
  }

  lemma RunEnds(h: Helper, ip: IpText, script: seq<Turn>, trace: seq<TurnLog>, status: Status)
    requires ValidRun(h, script, trace) && RanTo(ip, script, trace, status)
    ensures Accounted(AllOut(trace), WorldAfter(trace).probes) == multiset(EventTokens(Run([], Consumed(trace)).0))
    ensures status in {Running, Finished} ==> OutputOf(ip, script, trace) == Render(ip, AllOut(trace))
    ensures status == Finished ==>
              && WorldAfter(trace).probes == [] && (exists k :: 0 <= k < |trace| && script[k].read.Eof?)
              && multiset(ResponseTokens(AllOut(trace))) == multiset(EventTokens(Run([], Consumed(trace)).0))
  {
    assert |trace| <= |script|;
    hide RanTo, EventTokens, Render, OutputOf, ValidRun, AllOut, Consumed, WorldAfter, Run, Tokens, ResponseTokens;
    RunAccounts(h, script, trace);
    if status in {Running, Finished} {
      GoodEndHasWrittenAll(ip, script, trace, status);
    }
    if status == Finished {
      NormalEnd(h, ip, script, trace);
      NothingLive();
    }
  }

  lemma NothingLive()
    ensures Tokens([]) == []
  {
  }

  lemma VerdictIs(ip: IpText, w: World, t: Turn, g: TurnLog)
    ensures var (text, r) := Written(ip, g.out, t.writes, 0, t.fatal);
            var unread := w.open && !t.fatal && t.read.Broken?;
            && TurnText(ip, w, t, g) == (if unread then "" else text)
            && Verdict(ip, w, t, g)
               == if unread then ReadError
                  else if r.StillBlocked? then Blocked
                  else if t.fatal then Fatal
                  else if r.Gone? || !t.flushed then ClientGone
                  else if !g.after.open && g.after.probes == [] then Finished
                  else Running
  {
  }

  /** `serve`: `trace` logs the turns. Each follows from the one before as Turns has it, the loop
      stops at the first turn that ends it and for the reason that turn gives, and the client gets
      the replies of all turns in order. At every point replies plus live probes equal, token for
      token, what the byte-at-a-time automaton makes of the bytes read; so on a normal exit each
      command was answered exactly once, and all of it written. */
  method Serve(helper: Helper, ip: IpText, script: seq<Turn>)
    returns (status: Status, output: string, ghost trace: seq<TurnLog>)
    requires helper.table.Valid() && helper.table.probes == []
    requires forall k :: 0 <= k < |script| ==> PlausibleTurn(script[k])
    modifies helper.table
    ensures helper.table.Valid()
    ensures ValidRun(helper, script, trace) && helper.table.probes == WorldAfter(trace).probes
    ensures RanTo(ip, script, trace, status) && output == OutputOf(ip, script, trace)
    ensures Accounted(AllOut(trace), helper.table.probes) == multiset(EventTokens(Run([], Consumed(trace)).0))
    ensures status in {Running, Finished} ==> output == Render(ip, AllOut(trace))
    ensures status == Finished ==>
              && helper.table.probes == []
              && multiset(ResponseTokens(AllOut(trace))) == multiset(EventTokens(Run([], Consumed(trace)).0))
              && exists k :: 0 <= k < |trace| && script[k].read.Eof?
  {
    hide Accounted, EventTokens, Render, Verdict, VerdictAt, TurnText, TurnOk, Written, ValidRun, OutputOf, WorldAfter, Run,
         Consumed, AllOut, Tokens, ResponseTokens;
    var buffer := new CommandBuffer();
    var pipeOpen := true;
    status, output, trace := Running, "", [];
    RunStarts(helper, ip, script);
    for k := 0 to |script|
      invariant helper.table.Valid() && fresh(buffer) && Partial(buffer.buf) && status == Running
      invariant |trace| == k && ValidRun(helper, script, trace)
      invariant WorldAfter(trace) == World(helper.table.probes, buffer.buf, pipeOpen)
      invariant forall j :: 0 <= j < |trace| ==> VerdictAt(ip, script, trace, j) == Running
      invariant output == OutputOf(ip, script, trace)
    {
      ghost var before := trace;
      var out;
      ghost var g;
      pipeOpen, out, status, g := TakeTurn(helper, buffer, pipeOpen, script[k]);
      trace := trace + [g];
      TraceGrows(helper, ip, script, before, g);
      if status != ReadError {
        var text, end := WriteReplies(ip, out, script[k].writes, status == Fatal);
        output := output + text;
        status := if end.StillBlocked? then Blocked
                  else if status == Fatal then Fatal
                  else if end.Gone? || !script[k].flushed then ClientGone
                  else if !pipeOpen && |helper.table.probes| == 0 then Finished
                  else Running;
      } else {
        assert output + "" == output;
      }
      VerdictIs(ip, WorldAfter(before), script[k], g);
      if status != Running {
        RunEnds(helper, ip, script, trace, status);
        return;
      }
    }
    RunEnds(helper, ip, script, trace, status);
  }
}
