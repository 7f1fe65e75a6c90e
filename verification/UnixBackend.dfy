// The table-walking half of the Unix backend (unix/mod.rs). Sockets are replaced by oracles: what a
// connecting socket says when it is checked, and how each attempt to open one ends.
module UnixBackend {
  import opened Common
  import opened Requests
  import opened Cdecode
  import opened Mpls
  import opened Responses
  import opened ProbeTables
  import opened Deconstruct

  const MAX_U32 := 0xffff_ffff

  datatype Errno =
    | EINVAL | ENETDOWN | EHOSTDOWN | ENETUNREACH | EHOSTUNREACH | EPERM
    | EADDRINUSE | EADDRNOTAVAIL | ETIMEDOUT | ECONNREFUSED
    | OtherErrno(number: i64)
    | NoErrno

  const ECONNREFUSED_NUMBER: i64 := 111

  /** `error_response`: which reply an errno becomes. */
  function ErrorKind(e: Errno): ResponseKind {
    match e
    case EINVAL => ResponseKind.InvalidArgument(None)
    case ENETDOWN => Bare(NetworkDown)
    case EHOSTDOWN => Bare(HostDown)
    case ENETUNREACH => Bare(NoRouteNetwork)
    case EHOSTUNREACH => Bare(NoRoute)
    case EPERM => Bare(PermissionDenied)
    case EADDRINUSE => Bare(AddressInUse)
    case EADDRNOTAVAIL => Bare(AddressNotAvailable)
    case ETIMEDOUT => Bare(WaitTcpResponseTimeout)
    case ECONNREFUSED => UnexpectedError(Some(ECONNREFUSED_NUMBER))
    case OtherErrno(n) => UnexpectedError(Some(n))
    case NoErrno => UnexpectedError(None)
  }

  /** `rtt_us`: elapsed microseconds, saturated at both ends. */
  function RttUs(departure: int, now: int): u32 {
    Min(Max(now - departure, 0), MAX_U32)
  }

  function ProbeReply(p: LiveProbe, result: ProbeResult, from: IpAddr, now: int, mpls: seq<MplsLabel>): Response {
    Response(p.token, ResponseKind.Probe(result, from, RttUs(p.departure, now), mpls))
  }

  /** The time a reply gives is the time that passed, as long as that fits 32 bits; a clock that ran
      backwards gives none, an age that does not fit gives the most there is. */
  predicate TimePassed(departure: int, now: int, rtt: int) {
    && (departure <= now < departure + 0x1_0000_0000 ==> departure + rtt == now)
    && (now < departure ==> rtt == 0)
    && (now >= departure + 0x1_0000_0000 ==> rtt == 0xffff_ffff)
  }

  lemma RttIsTimePassed(departure: int, now: int)
    ensures TimePassed(departure, now, RttUs(departure, now))
  {
  }

  /** Reply `r` answers probe `p`: its token, what happened, who sent it, how long it took. */
  predicate SaysOf(r: Response, p: LiveProbe, result: ProbeResult, from: IpAddr, now: int, mpls: seq<MplsLabel>) {
    && r.token == p.token && r.kind.Probe?
    && r.kind.result == result && r.kind.addr == from && r.kind.mpls == mpls && TimePassed(p.departure, now, r.kind.rtt)
  }

  lemma ProbeReplyAnswers(p: LiveProbe, result: ProbeResult, from: IpAddr, now: int, mpls: seq<MplsLabel>)
    ensures SaysOf(ProbeReply(p, result, from, now, mpls), p, result, from, now, mpls)
  {
    RttIsTimePassed(p.departure, now);
  }

  /** `respond`: one swap removal, and one reply carrying the removed entry's token and elapsed time. */
  method Respond(table: ProbeTable, idx: nat, result: ProbeResult, from: IpAddr, now: int, mpls: seq<MplsLabel>,
                 out: seq<Response>)
    returns (r: seq<Response>)
    requires table.Valid() && idx < |table.probes|
    modifies table`probes, table`draws
    ensures table.Valid() && table.probes == SwapRemove(old(table.probes), idx)
    ensures r == out + [ProbeReply(old(table.probes)[idx], result, from, now, mpls)]
    ensures SaysOf(r[|out|], old(table.probes)[idx], result, from, now, mpls)
  {
    var p := table.Remove(idx);
    ProbeReplyAnswers(p, result, from, now, mpls);
    r := out + [ProbeReply(p, result, from, now, mpls)];
  }

  /** `deliver`: a parsed message either answers the probe it matches or is dropped. */
  method Deliver(table: ProbeTable, parsed: Parsed, version: byte, icmpId: u16, from: IpAddr, now: int,
                 out: seq<Response>)
    returns (r: seq<Response>)
    requires table.Valid()
    modifies table`probes, table`draws
    ensures table.Valid()
    ensures var m := MatchReply(old(table.probes), parsed, version, icmpId);
            && (m.None? ==> table.probes == old(table.probes) && r == out)
            && (m.Some? ==> table.probes == SwapRemove(old(table.probes), m.value.0)
                            && r == out + [ProbeReply(old(table.probes)[m.value.0], m.value.1, from, now, parsed.mpls)]
                            && SaysOf(r[|out|], old(table.probes)[m.value.0], m.value.1, from, now, parsed.mpls))
  {
    r := out;
    var m := MatchReply(table.probes, parsed, version, icmpId);
    if m.Some? {
      r := Respond(table, m.value.0, m.value.1, from, now, parsed.mpls, out);
    }
  }

  // ----- Stream completions -----

  datatype Completion = Pending | Reached | Failed(errno: Errno)

  type Oracle = nat -> Completion

  predicate Done(p: LiveProbe, oracle: Oracle) {
    p.stream.Some? && !oracle(p.stream.value).Pending?
  }

  /** The single reply a finished stream probe gets. */
  function Answer(p: LiveProbe, oracle: Oracle, now: int): Response
    requires Done(p, oracle)
  {
    match oracle(p.stream.value)
    case Reached => ProbeReply(p, Reply, p.remote.ip, now, [])
    case Failed(e) => Response(p.token, ErrorKind(e))
  }

  /** The answers for a stretch of the table, last entry first. */
  function Answers(probes: seq<LiveProbe>, oracle: Oracle, now: int): seq<Response> {
    if probes == [] then []
    else Answers(probes[1..], oracle, now) + (if Done(probes[0], oracle) then [Answer(probes[0], oracle, now)] else [])
  }

  /** The sockets of a stretch of the table, last entry first. */
  function SocketsDown(probes: seq<LiveProbe>): seq<nat> {
    if probes == [] then []
    else SocketsDown(probes[1..]) + (if probes[0].stream.Some? then [probes[0].stream.value] else [])
  }

  /** `stream_fds`: the indices of the stream probes, ascending. */
  function StreamIndices(probes: seq<LiveProbe>): (r: seq<nat>)
    ensures forall k :: 0 <= k < |r| ==> r[k] < |probes| && probes[r[k]].stream.Some?
    ensures forall k, l :: 0 <= k < l < |r| ==> r[k] < r[l]
    ensures forall i :: 0 <= i < |probes| && probes[i].stream.Some? ==> i in r
  {
    if probes == [] then []
    else
      var n := |probes| - 1;
      StreamIndices(probes[..n]) + (if probes[n].stream.Some? then [n] else [])
  }

  lemma {:induction false} QuietStretch(a: seq<LiveProbe>, b: seq<LiveProbe>, oracle: Oracle, now: int)
    requires forall i :: 0 <= i < |a| ==> a[i].stream.None?
    ensures Answers(a + b, oracle, now) == Answers(b, oracle, now) && SocketsDown(a + b) == SocketsDown(b)
  {
    if a == [] {
      assert a + b == b;
    } else {
      assert (a + b)[1..] == a[1..] + b;
      QuietStretch(a[1..], b, oracle, now);
    }
  }

  lemma SuffixAfterRemove(s: seq<LiveProbe>, i: nat)
    requires i < |s|
    ensures SwapRemove(s, i)[..i] == s[..i]
    ensures multiset(SwapRemove(s, i)[i..]) == multiset(s[i + 1..])
  {
    var n := |s| - 1;
    if i < n {
      assert s[i + 1..] == s[i + 1..n] + [s[n]];
      assert SwapRemove(s, i)[i..] == [s[n]] + s[i + 1..n];
    } else {
      assert SwapRemove(s, i)[i..] == [] && s[i + 1..] == [];
    }
  }

  /** One visit: the entries between two stream probes are untouched, and the visited one is
      settled, so the suffix holds the kept entries of the original suffix. */
  lemma VisitSettles(was: seq<LiveProbe>, table: seq<LiveProbe>, i: nat, bound: nat, keep: LiveProbe -> bool)
    requires i < bound <= |was| && bound <= |table|
    requires table[..bound] == was[..bound]
    requires forall j :: i < j < bound ==> keep(was[j])
    requires multiset(table[bound..]) == Kept(was[bound..], keep)
    ensures multiset(table[i + 1..]) == Kept(was[i + 1..], keep)
  {
    hide Kept;
    var middle := was[i + 1..bound];
    assert table[i + 1..bound] == table[..bound][i + 1..bound] == middle;
    assert table[i + 1..] == middle + table[bound..];
    assert was[i + 1..] == middle + was[bound..];
    KeptConcat(middle, was[bound..], keep);
    KeptAll(middle, keep);
  }

  /** Entries without a stream are never done. */
  function NotDone(oracle: Oracle): LiveProbe -> bool {
    p => !Done(p, oracle)
  }

  lemma NoStreamBetween(probes: seq<LiveProbe>, k: nat)
    requires k < |StreamIndices(probes)|
    ensures var idxs := StreamIndices(probes);
            forall j :: idxs[k] < j < (if k + 1 < |idxs| then idxs[k + 1] else |probes|) ==> probes[j].stream.None?
  {
    hide StreamIndices;
    var idxs := StreamIndices(probes);
    forall j | 0 <= j < |probes| && probes[j].stream.Some?
      ensures j <= idxs[k] || (k + 1 < |idxs| && idxs[k + 1] <= j)
    {
      var l :| 0 <= l < |idxs| && idxs[l] == j;
      if l > k + 1 {
        assert idxs[k + 1] < idxs[l];
      }
    }
  }

  lemma NoStreamBefore(probes: seq<LiveProbe>)
    ensures var idxs := StreamIndices(probes);
            forall j :: 0 <= j < (if idxs != [] then idxs[0] else |probes|) ==> probes[j].stream.None?
  {
    hide StreamIndices;
    var idxs := StreamIndices(probes);
    forall j | 0 <= j < |probes| && probes[j].stream.Some? ensures idxs != [] && idxs[0] <= j {
      var l :| 0 <= l < |idxs| && idxs[l] == j;
      if l > 0 {
        assert idxs[0] < idxs[l];
      }
    }
  }

  lemma KeptHead(was: seq<LiveProbe>, i: nat, keep: LiveProbe -> bool)
    requires i < |was|
    ensures Kept(was[i..], keep) == Once(was[i], keep(was[i])) + Kept(was[i + 1..], keep)
  {
    assert was[i..] == [was[i]] + was[i + 1..];
    KeptConcat([was[i]], was[i + 1..], keep);
    KeptOne(was[i], keep);
  }

  lemma VisitAnswers(was: seq<LiveProbe>, i: nat, bound: nat, oracle: Oracle, now: int)
    requires i < bound <= |was| && was[i].stream.Some?
    requires forall j :: i < j < bound ==> was[j].stream.None?
    ensures Answers(was[i..], oracle, now)
            == Answers(was[bound..], oracle, now)
               + (if Done(was[i], oracle) then [Answer(was[i], oracle, now)] else [])
    ensures SocketsDown(was[i..]) == SocketsDown(was[bound..]) + [was[i].stream.value]
  {
    var middle := was[i + 1..bound];
    assert was[i..][1..] == was[i + 1..] == middle + was[bound..];
    QuietStretch(middle, was[bound..], oracle, now);
  }

  /** The walk has come down to `bound`: below it nothing moved, above it exactly the completed
      probes are gone and answered. */
  ghost predicate Walked(was: seq<LiveProbe>, table: seq<LiveProbe>, bound: nat, oracle: Oracle, now: int,
                         r: seq<Response>, inspected: seq<nat>) {
    && bound <= |was| && bound <= |table| && table[..bound] == was[..bound]
    && multiset(table[bound..]) == Kept(was[bound..], NotDone(oracle))
    && r == Answers(was[bound..], oracle, now)
    && inspected == SocketsDown(was[bound..])
  }

  lemma WalkStarts(was: seq<LiveProbe>, oracle: Oracle, now: int)
    ensures Walked(was, was, |was|, oracle, now, [], [])
  {
    assert was[|was|..] == [];
  }

  lemma WalkSteps(was: seq<LiveProbe>, table: seq<LiveProbe>, i: nat, bound: nat, oracle: Oracle, now: int,
                  r: seq<Response>, inspected: seq<nat>)
    requires Walked(was, table, bound, oracle, now, r, inspected)
    requires i < bound && was[i].stream.Some?
    requires forall j :: i < j < bound ==> was[j].stream.None?
    ensures table[i] == was[i]
    ensures Walked(was, if Done(was[i], oracle) then SwapRemove(table, i) else table, i, oracle, now,
                   r + (if Done(was[i], oracle) then [Answer(was[i], oracle, now)] else []),
                   inspected + [was[i].stream.value])
  {
    hide Answers, SocketsDown, Kept, SwapRemove, Once;
    assert table[i] == table[..bound][i] == was[..bound][i];
    assert forall j :: i < j < bound ==> NotDone(oracle)(was[j]);
    VisitSettles(was, table, i, bound, NotDone(oracle));
    VisitAnswers(was, i, bound, oracle, now);
    OnceHead(was, table, i, oracle);
    SuffixAfterRemove(table, i);
    assert table[..i] == table[..bound][..i] == was[..bound][..i] == was[..i];
  }

  lemma OnceHead(was: seq<LiveProbe>, table: seq<LiveProbe>, i: nat, oracle: Oracle)
    requires i < |was| && i < |table| && table[i] == was[i]
    requires multiset(table[i + 1..]) == Kept(was[i + 1..], NotDone(oracle))
    ensures Done(was[i], oracle) ==> multiset(table[i + 1..]) == Kept(was[i..], NotDone(oracle))
    ensures !Done(was[i], oracle) ==> multiset(table[i..]) == Kept(was[i..], NotDone(oracle))
  {
    hide Kept;
    KeptHead(was, i, NotDone(oracle));
    assert table[i..] == [was[i]] + table[i + 1..];
  }

  lemma WalkEnds(was: seq<LiveProbe>, table: seq<LiveProbe>, bound: nat, oracle: Oracle, now: int,
                 r: seq<Response>, inspected: seq<nat>)
    requires Walked(was, table, bound, oracle, now, r, inspected)
    requires forall j :: 0 <= j < bound ==> was[j].stream.None?
    ensures r == Answers(was, oracle, now) && inspected == SocketsDown(was)
    ensures multiset(table) == Kept(was, NotDone(oracle))
  {
    hide Answers, SocketsDown, Kept;
    var head := was[..bound];
    QuietStretch(head, was[bound..], oracle, now);
    assert was == head + was[bound..];
    assert table == head + table[bound..];
    KeptAll(head, NotDone(oracle));
    KeptConcat(head, was[bound..], NotDone(oracle));
  }

  /** One stream probe of the walk. */
  method CheckStream(table: ProbeTable, idx: nat, oracle: Oracle, now: int, out: seq<Response>)
    returns (r: seq<Response>)
    requires table.Valid() && idx < |table.probes| && table.probes[idx].stream.Some?
    modifies table`probes, table`draws
    ensures table.Valid()
    ensures var p := old(table.probes)[idx];
            && table.probes == (if Done(p, oracle) then SwapRemove(old(table.probes), idx) else old(table.probes))
            && r == out + (if Done(p, oracle) then [Answer(p, oracle, now)] else [])
  {
    r := out;
    match oracle(table.probes[idx].stream.value) {
      case Pending =>
      case Reached =>
        r := Respond(table, idx, Reply, table.probes[idx].remote.ip, now, [], r);
      case Failed(e) =>
        var p := table.Remove(idx);
        r := r + [Response(p.token, ErrorKind(e))];
    }
  }

  /** `check_streams`: `inspected` lists every stream socket once, last entry first; the replies are
      those of the completed probes in that order; as a multiset the table keeps all the rest. */
  method CheckStreams(table: ProbeTable, oracle: Oracle, now: int, out: seq<Response>)
    returns (r: seq<Response>, ghost inspected: seq<nat>)
    requires table.Valid()
    modifies table`probes, table`draws
    ensures table.Valid()
    ensures inspected == SocketsDown(old(table.probes))
    ensures r == out + Answers(old(table.probes), oracle, now)
    ensures multiset(table.probes) == Kept(old(table.probes), NotDone(oracle))
  {
    hide Answers, SocketsDown, Kept, SwapRemove, Walked;
    ghost var was := table.probes;
    var idxs := StreamIndices(table.probes);
    ghost var answers: seq<Response> := [];
    r, inspected := out, [];
    ghost var bound := |was|;
    WalkStarts(was, oracle, now);
    for k := |idxs| downto 0
      invariant table.Valid() && bound == if k < |idxs| then idxs[k] else |was|
      invariant Walked(was, table.probes, bound, oracle, now, answers, inspected)
      invariant bound <= |table.probes| && r == out + answers
    {
      var idx := idxs[k];
      NoStreamBetween(was, k);
      WalkSteps(was, table.probes, idx, bound, oracle, now, answers, inspected);
      inspected := inspected + [was[idx].stream.value];
      answers := answers + (if Done(was[idx], oracle) then [Answer(was[idx], oracle, now)] else []);
      r := CheckStream(table, idx, oracle, now, r);
      bound := idx;
      WalkedBound(was, table.probes, bound, oracle, now, answers, inspected);
    }
    NoStreamBefore(was);
    WalkEnds(was, table.probes, bound, oracle, now, answers, inspected);
  }

  lemma WalkedBound(was: seq<LiveProbe>, table: seq<LiveProbe>, bound: nat, oracle: Oracle, now: int,
                    r: seq<Response>, inspected: seq<nat>)
    requires Walked(was, table, bound, oracle, now, r, inspected)
    ensures bound <= |table|
  {
  }

  function KeptTokens(probes: seq<LiveProbe>, oracle: Oracle): multiset<i32> {
    multiset(Tokens(Filter(probes, NotDone(oracle))))
  }

  function AnsweredTokens(probes: seq<LiveProbe>, oracle: Oracle, now: int): multiset<i32> {
    multiset(ResponseTokens(Answers(probes, oracle, now)))
  }

  lemma KeptTokensCons(p: LiveProbe, rest: seq<LiveProbe>, oracle: Oracle)
    ensures KeptTokens([p] + rest, oracle) == KeptTokens(rest, oracle) + Once(p.token, !Done(p, oracle))
  {
    FilterAppend([p], rest, NotDone(oracle));
    FilterOne(p, NotDone(oracle));
    hide Filter, Tokens;
    var kept := Filter(rest, NotDone(oracle));
    TokensCons(p, kept);
    assert [] + kept == kept;
  }

  lemma AnsweredTokensCons(p: LiveProbe, rest: seq<LiveProbe>, oracle: Oracle, now: int)
    ensures AnsweredTokens([p] + rest, oracle, now)
            == AnsweredTokens(rest, oracle, now) + Once(p.token, Done(p, oracle))
  {
    var all := [p] + rest;
    var answers := Answers(rest, oracle, now);
    assert all[0] == p && all[1..] == rest;
    assert Answers(all, oracle, now)
        == answers + (if Done(p, oracle) then [Answer(p, oracle, now)] else []);
    hide ResponseTokens, Answer, Answers;
    if Done(p, oracle) {
      AnswerToken(p, oracle, now);
      ResponseTokensPush(answers, Answer(p, oracle, now));
    } else {
      assert answers + [] == answers;
    }
  }

  /** Every probe there was is either still kept or has exactly one reply with its token. */
  lemma {:induction false} AnswersConserveTokens(probes: seq<LiveProbe>, oracle: Oracle, now: int)
    ensures AnsweredTokens(probes, oracle, now) + KeptTokens(probes, oracle) == multiset(Tokens(probes))
  {
    if probes != [] {
      hide AnsweredTokens, KeptTokens, Tokens;
      var p, rest := probes[0], probes[1..];
      assert probes == [p] + rest;
      AnswersConserveTokens(rest, oracle, now);
      KeptTokensCons(p, rest, oracle);
      AnsweredTokensCons(p, rest, oracle, now);
      TokensCons(p, rest);
    }
  }

  lemma AnswerToken(p: LiveProbe, oracle: Oracle, now: int)
    requires Done(p, oracle)
    ensures Answer(p, oracle, now).token == p.token
  {
  }

  lemma TokensCons(p: LiveProbe, rest: seq<LiveProbe>)
    ensures multiset(Tokens([p] + rest)) == multiset{p.token} + multiset(Tokens(rest))
  {
    assert Tokens([p] + rest) == [p.token] + Tokens(rest);
  }

  /** Reply `r` tells a stream probe what its socket said: that its destination was reached, or why
      not. */
  predicate Tells(r: Response, p: LiveProbe, said: Completion, now: int) {
    match said
    case Pending => false
    case Reached => SaysOf(r, p, Reply, p.remote.ip, now, [])
    case Failed(e) => r == Response(p.token, ErrorKind(e))
  }

  lemma AnswerSays(p: LiveProbe, oracle: Oracle, now: int)
    requires Done(p, oracle)
    ensures Tells(Answer(p, oracle, now), p, oracle(p.stream.value), now)
  {
    ProbeReplyAnswers(p, Reply, p.remote.ip, now, []);
  }

  /** Every stream probe whose socket has been heard of is answered with what was heard, and every
      other entry is kept. */
  lemma {:induction false} StreamsAreAnswered(probes: seq<LiveProbe>, oracle: Oracle, now: int, i: nat)
    requires i < |probes|
    ensures var p := probes[i];
            if p.stream.None? || oracle(p.stream.value).Pending? then p in Filter(probes, NotDone(oracle))
            else exists r :: r in Answers(probes, oracle, now) && Tells(r, p, oracle(p.stream.value), now)
  {
    var p, rest := probes[i], probes[1..];
    assert probes == [probes[0]] + rest;
    FilterAppend([probes[0]], rest, NotDone(oracle));
    FilterOne(probes[0], NotDone(oracle));
    var more := if Done(probes[0], oracle) then [Answer(probes[0], oracle, now)] else [];
    assert Answers(probes, oracle, now) == Answers(rest, oracle, now) + more;
    hide Tells, Answers, Filter;
    if i > 0 {
      StreamsAreAnswered(rest, oracle, now, i - 1);
      if Done(p, oracle) {
        var r :| r in Answers(rest, oracle, now) && Tells(r, p, oracle(p.stream.value), now);
        assert r in Answers(probes, oracle, now);
      }
    } else if Done(p, oracle) {
      AnswerSays(p, oracle, now);
      assert Answer(p, oracle, now) in more;
    }
  }

  // ----- Starting a stream probe -----

  datatype OpenOutcome = Opened(socket: nat) | PortTaken(errno: Errno) | OpenFailed(errno: Errno)

  predicate WellFormedOpen(o: OpenOutcome) {
    && (o.PortTaken? ==> o.errno in {EADDRINUSE, EADDRNOTAVAIL})
    && (o.OpenFailed? ==> o.errno !in {EADDRINUSE, EADDRNOTAVAIL})
  }

  const HTTP_PORT: u16 := 80
  const ATTEMPTS := 32101

  /** How opening ends: the first attempt that does not meet a taken port decides; if every one does,
      the last error is reported. */
  function OpenResult(opens: nat -> OpenOutcome, attempt: nat): Result<nat, Errno>
    requires attempt < ATTEMPTS
    decreases ATTEMPTS - attempt
  {
    match opens(attempt)
    case Opened(socket) => Ok(socket)
    case OpenFailed(e) => Err(e)
    case PortTaken(e) => if attempt + 1 == ATTEMPTS then Err(e) else OpenResult(opens, attempt + 1)
  }

  function StreamDestPort(params: CProbeParams): u16 {
    if params.destPort != 0 then params.destPort % 0x1_0000 else HTTP_PORT
  }

  /** `start_stream`: `tried` lists the source ports in order, all different, at most 32101 of them;
      all but the last were taken, and the last attempt decides. Only entry `idx` changes, and the
      source port of a started probe is its sequence. */
  method StartStream(table: ProbeTable, idx: nat, params: CProbeParams, opens: nat -> OpenOutcome)
    returns (r: Result<(), Errno>, ghost tried: seq<u16>)
    requires table.Valid() && idx < |table.probes| && table.draws[idx] == table.total - 1
    requires forall k :: WellFormedOpen(opens(k))
    modifies table
    ensures table.Valid() && |table.probes| == |old(table.probes)|
    ensures table.probes == old(table.probes)[idx := table.probes[idx]]
    ensures table.probes[idx].(sequence := 0, stream := None, remote := UNSPECIFIED, local := UNSPECIFIED)
            == old(table.probes[idx]).(sequence := 0, stream := None, remote := UNSPECIFIED, local := UNSPECIFIED)
    ensures table.probes[idx].remote.ip == old(table.probes[idx]).remote.ip
    ensures 1 <= |tried| <= ATTEMPTS
    ensures forall k :: 0 <= k < |tried| - 1 ==> opens(k).PortTaken?
    ensures r == match OpenResult(opens, 0) case Ok(_) => Ok(()) case Err(e) => Err(e)
    ensures tried[0] == old(table.probes[idx]).sequence
    ensures forall j, k :: 0 <= j < k < |tried| ==> tried[j] != tried[k]
    ensures r.Ok? ==>
              var p := table.probes[idx];
              && opens(|tried| - 1) == Opened(OpenResult(opens, 0).value) && p.stream == Some(OpenResult(opens, 0).value)
              && p.sequence == p.local.port == tried[|tried| - 1]
              && p.remote.port == StreamDestPort(params) && p.local.ip == old(table.probes[idx]).local.ip
    ensures r.Err? ==> opens(|tried| - 1) in {PortTaken(r.error), OpenFailed(r.error)}
    ensures r.Err? && opens(|tried| - 1).PortTaken? ==> |tried| == ATTEMPTS
  {
    hide Drawn, StreamDestPort, WellFormedOpen, Ports;
    ghost var d0 := table.draws[idx];
    r := Err(EADDRINUSE);
    tried := [];
    NoPorts(d0);
    for attempt := 0 to ATTEMPTS
      invariant table.Valid() && |table.probes| == |old(table.probes)| && r.Err?
      invariant tried == Ports(d0, attempt) && table.draws[idx] == d0 + attempt == table.total - 1
      invariant forall k :: 0 <= k < attempt ==> opens(k).PortTaken?
      invariant OpenResult(opens, 0) == if attempt < ATTEMPTS then OpenResult(opens, attempt) else Err(r.error)
      invariant table.probes == old(table.probes)[idx := old(table.probes)[idx].(sequence := Drawn(d0 + attempt))]
      invariant attempt > 0 ==> opens(attempt - 1) == PortTaken(r.error)
    {
      tried := tried + [table.probes[idx].sequence];
      PortsStep(d0, attempt);
      var done;
      done, r := TryPort(table, idx, params, opens(attempt));
      if done {
        PortsDiffer(d0, attempt + 1);
        return;
      }
    }
    PortsDiffer(d0, ATTEMPTS);
  }

  /** One attempt: the probe is connected, aimed at the port that refused it, or given the next
      number. */
  method TryPort(table: ProbeTable, idx: nat, params: CProbeParams, outcome: OpenOutcome)
    returns (done: bool, r: Result<(), Errno>)
    requires table.Valid() && idx < |table.probes|
    modifies table
    ensures table.Valid()
    ensures var was := old(table.probes);
            match outcome
            case Opened(socket) =>
              && done && r == Ok(()) && table.draws == old(table.draws)
              && table.probes == was[idx := was[idx].(remote := SocketAddr(was[idx].remote.ip, StreamDestPort(params)),
                                                      local := SocketAddr(was[idx].local.ip, was[idx].sequence),
                                                      stream := Some(socket))]
            case OpenFailed(e) =>
              && done && r == Err(e) && table.draws == old(table.draws)
              && table.probes == was[idx := was[idx].(remote := SocketAddr(was[idx].remote.ip, StreamDestPort(params)))]
            case PortTaken(e) =>
              && !done && r == Err(e) && table.total == old(table.total) + 1
              && table.draws == old(table.draws)[idx := old(table.total)]
              && table.probes == was[idx := was[idx].(sequence := Drawn(old(table.total)))]
  {
    var p := table.probes[idx];
    match outcome {
      case Opened(socket) =>
        table.Update(idx, p.(remote := SocketAddr(p.remote.ip, StreamDestPort(params)),
                             local := SocketAddr(p.local.ip, p.sequence), stream := Some(socket)));
        return true, Ok(());
      case PortTaken(e) =>
        table.Redraw(idx);
        return false, Err(e);
      case OpenFailed(e) =>
        table.Update(idx, p.(remote := SocketAddr(p.remote.ip, StreamDestPort(params))));
        return true, Err(e);
    }
  }

  /** The ports of `n` consecutive draws. */
  function Ports(d0: nat, n: nat): (r: seq<u16>)
    ensures |r| == n && forall k :: 0 <= k < n ==> r[k] == Drawn(d0 + k)
  {
    if n == 0 then [] else Ports(d0, n - 1) + [Drawn(d0 + n - 1)]
  }

  lemma NoPorts(d0: nat)
    ensures Ports(d0, 0) == []
  {
  }

  lemma PortsStep(d0: nat, n: nat)
    ensures Ports(d0, n) + [Drawn(d0 + n)] == Ports(d0, n + 1)
    ensures Ports(d0, n + 1)[0] == Drawn(d0) && Ports(d0, n + 1)[n] == Drawn(d0 + n)
  {
  }

  lemma PortsDiffer(d0: nat, n: nat)
    requires 0 < n < PORT_COUNT
    ensures Ports(d0, n)[0] == Drawn(d0)
    ensures forall j, k :: 0 <= j < k < n ==> Ports(d0, n)[j] != Ports(d0, n)[k]
  {
    forall j, k | 0 <= j < k < n ensures Ports(d0, n)[j] != Ports(d0, n)[k] {
      DrawsInWindowDiffer(d0 + j, d0 + k);
    }
  }
}
