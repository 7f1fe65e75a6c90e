// The table of live probes (probe_table.rs): where numbers come from, and who is found, kept or expired.
module ProbeTables {
  import opened Common
  import opened Requests
  import opened Responses

  const MAX_PROBES := 10240
  /** Instants and durations are in microseconds. */
  const SECOND := 1_000_000
  const MIN_PORT := 33434
  const MAX_PORT := 65535
  const PORT_COUNT := 32102

  datatype SocketAddr = SocketAddr(ip: IpAddr, port: u16)

  /** A live probe. `stream` names the connecting socket of a TCP or SCTP probe. */
  datatype LiveProbe = LiveProbe(token: i32, sequence: u16, protocol: Protocol, remote: SocketAddr, local: SocketAddr,
                         departure: int, timeoutAt: int, stream: Option<nat>)

  const UNSPECIFIED := SocketAddr(V4([0, 0, 0, 0]), 0)

  // ----- Sequence numbers -----

  /** The value handed out by draw number `k`, counting from 0. */
  function Drawn(k: nat): (s: u16)
    ensures 33434 <= s <= 65535
  {
    MIN_PORT + k % PORT_COUNT
  }

  /** Two draws collide exactly when they are a multiple of the port range apart. */
  lemma DrawsCollideIff(a: nat, b: nat)
    requires a <= b
    ensures Drawn(a) == Drawn(b) <==> (b - a) % 32102 == 0
  {
    var qa, ra, qb, rb := a / PORT_COUNT, a % PORT_COUNT, b / PORT_COUNT, b % PORT_COUNT;
    assert b - a == (rb - ra) + PORT_COUNT * (qb - qa);
    if ra == rb {
      MultipleHasNoRest(qb - qa);
    }
    if (b - a) % PORT_COUNT == 0 {
      SmallMultipleIsZero(rb - ra, (b - a) / PORT_COUNT - (qb - qa));
    }
  }

  lemma SmallMultipleIsZero(d: int, q: int)
    requires d == PORT_COUNT * q && -PORT_COUNT < d < PORT_COUNT
    ensures d == 0
  {
  }

  lemma {:induction false} MultipleHasNoRest(q: nat)
    ensures (PORT_COUNT * q) % PORT_COUNT == 0
  {
    if q > 0 {
      MultipleHasNoRest(q - 1);
      assert PORT_COUNT * q == PORT_COUNT * (q - 1) + PORT_COUNT;
    }
  }

  lemma DrawsInWindowDiffer(a: nat, b: nat)
    requires a < b < a + PORT_COUNT
    ensures Drawn(a) != Drawn(b)
  {
    DrawsCollideIff(a, b);
  }

  // ----- Vec operations -----

  /** `Vec::swap_remove`: the last entry moves into the hole. */
  function SwapRemove<T>(s: seq<T>, i: nat): (r: seq<T>)
    requires i < |s|
    ensures |r| == |s| - 1
    ensures i == |s| - 1 ==> r == s[..i]
    ensures i < |s| - 1 ==> r == s[..i] + [s[|s| - 1]] + s[i + 1..|s| - 1]
  {
    if i == |s| - 1 then s[..i] else s[i := s[|s| - 1]][..|s| - 1]
  }

  lemma MultisetOfParts<T>(a: seq<T>, x: T, b: seq<T>, y: T)
    ensures multiset(a + [x] + b + [y]) == multiset(a + [y] + b) + multiset{x}
  {
  }

  lemma SwapRemoveMultiset<T>(s: seq<T>, i: nat)
    requires i < |s|
    ensures multiset(s) == multiset(SwapRemove(s, i)) + multiset{s[i]}
    ensures multiset(SwapRemove(s, i)) == multiset(s) - multiset{s[i]}
  {
    hide SwapRemove;
    var n := |s| - 1;
    if i < n {
      MultisetOfParts(s[..i], s[i], s[i + 1..n], s[n]);
      SplitAround(s, i);
    } else {
      MultisetOfLast(s);
    }
    OneLess(multiset(s), multiset(SwapRemove(s, i)), s[i]);
  }

  lemma SplitAround<T>(s: seq<T>, i: nat)
    requires i < |s| - 1
    ensures s == s[..i] + [s[i]] + s[i + 1..|s| - 1] + [s[|s| - 1]]
  {
  }

  lemma MultisetOfLast<T>(s: seq<T>)
    requires s != []
    ensures multiset(s) == multiset(s[..|s| - 1]) + multiset{s[|s| - 1]}
  {
    assert s == s[..|s| - 1] + [s[|s| - 1]];
  }

  lemma OneLess<T>(all: multiset<T>, rest: multiset<T>, x: T)
    requires all == rest + multiset{x}
    ensures rest == all - multiset{x}
  {
  }

  function Filter<T>(s: seq<T>, keep: T -> bool): seq<T> {
    if s == [] then []
    else Filter(s[..|s| - 1], keep) + (if keep(s[|s| - 1]) then [s[|s| - 1]] else [])
  }

  lemma {:induction false} FilterAppend<T>(a: seq<T>, b: seq<T>, keep: T -> bool)
    ensures Filter(a + b, keep) == Filter(a, keep) + Filter(b, keep)
  {
    if b == [] {
      assert a + b == a;
    } else {
      FilterAppend(a, b[..|b| - 1], keep);
      assert (a + b)[..|a + b| - 1] == a + b[..|b| - 1];
    }
  }

  lemma FilterOne<T>(x: T, keep: T -> bool)
    ensures Filter([x], keep) == if keep(x) then [x] else []
  {
    assert [x][..0] == [];
  }

  lemma {:induction false} FilterAll<T>(s: seq<T>, keep: T -> bool)
    requires forall i :: 0 <= i < |s| ==> keep(s[i])
    ensures Filter(s, keep) == s
  {
    if s != [] {
      FilterAll(s[..|s| - 1], keep);
    }
  }

  function Once<T(==)>(v: T, there: bool): multiset<T> {
    if there then multiset{v} else multiset{}
  }

  /** The entries of a vector that satisfy `keep`, in no order. */
  function Kept<T(==)>(s: seq<T>, keep: T -> bool): multiset<T> {
    multiset(Filter(s, keep))
  }

  lemma KeptConcat<T>(a: seq<T>, b: seq<T>, keep: T -> bool)
    ensures Kept(a + b, keep) == Kept(a, keep) + Kept(b, keep)
  {
    FilterAppend(a, b, keep);
  }

  lemma KeptOne<T>(x: T, keep: T -> bool)
    ensures Kept([x], keep) == Once(x, keep(x))
  {
    FilterOne(x, keep);
  }

  lemma KeptSwap<T>(a: seq<T>, x: T, b: seq<T>, y: T, keep: T -> bool)
    ensures Kept(a + [x] + b + [y], keep) == Kept(a + [y] + b, keep) + Once(x, keep(x))
  {
    KeptOne(x, keep);
    KeptOne(y, keep);
    hide Kept, Once;
    KeptConcat(a + [x] + b, [y], keep);
    KeptConcat(a + [x], b, keep);
    KeptConcat(a, [x], keep);
    KeptConcat(a + [y], b, keep);
    KeptConcat(a, [y], keep);
  }

  /** Removing by swap takes one entry away, as far as the filtered contents are concerned. */
  lemma KeptSwapRemove<T>(s: seq<T>, i: nat, keep: T -> bool)
    requires i < |s|
    ensures Kept(s, keep) == Kept(SwapRemove(s, i), keep) + Once(s[i], keep(s[i]))
  {
    hide Kept;
    var n := |s| - 1;
    if i < n {
      KeptSwap(s[..i], s[i], s[i + 1..n], s[n], keep);
      assert s == s[..i] + [s[i]] + s[i + 1..n] + [s[n]];
    } else {
      assert s == s[..n] + [s[n]];
      KeptConcat(s[..n], [s[n]], keep);
      KeptOne(s[n], keep);
    }
  }

  lemma KeptAll<T>(a: seq<T>, keep: T -> bool)
    requires forall i :: 0 <= i < |a| ==> keep(a[i])
    ensures Kept(a, keep) == multiset(a)
  {
    FilterAll(a, keep);
  }

  function Tokens(probes: seq<LiveProbe>): (r: seq<i32>)
    ensures |r| == |probes|
  {
    seq(|probes|, i requires 0 <= i < |probes| => probes[i].token)
  }

  function ResponseTokens(out: seq<Response>): (r: seq<i32>)
    ensures |r| == |out|
  {
    seq(|out|, i requires 0 <= i < |out| => out[i].token)
  }

  lemma TokensSwapRemove(probes: seq<LiveProbe>, i: nat)
    requires i < |probes|
    ensures multiset(Tokens(probes)) == multiset(Tokens(SwapRemove(probes, i))) + multiset{probes[i].token}
  {
    assert Tokens(SwapRemove(probes, i)) == SwapRemove(Tokens(probes), i);
    SwapRemoveMultiset(Tokens(probes), i);
  }

  lemma TokensPush(probes: seq<LiveProbe>, p: LiveProbe)
    ensures multiset(Tokens(probes + [p])) == multiset(Tokens(probes)) + multiset{p.token}
  {
    assert Tokens(probes + [p]) == Tokens(probes) + [p.token];
  }

  lemma ResponseTokensPush(out: seq<Response>, r: Response)
    ensures multiset(ResponseTokens(out + [r])) == multiset(ResponseTokens(out)) + multiset{r.token}
  {
    assert ResponseTokens(out + [r]) == ResponseTokens(out) + [r.token];
  }

  // ----- The table -----

  /** One step of `expire`: an overdue entry goes, its reply comes, nothing kept is lost. */
  lemma OverdueLeaves(probes: seq<LiveProbe>, i: nat, now: int, out: seq<Response>)
    requires i < |probes| && Overdue(probes[i], now)
    ensures Kept(SwapRemove(probes, i), InTime(now)) == Kept(probes, InTime(now))
    ensures multiset(ResponseTokens(out + [Response(probes[i].token, Bare(NoReply))]))
            + multiset(Tokens(SwapRemove(probes, i)))
            == multiset(ResponseTokens(out)) + multiset(Tokens(probes))
  {
    hide Kept, Tokens, ResponseTokens, SwapRemove;
    KeptSwapRemove(probes, i, InTime(now));
    TokensSwapRemove(probes, i);
    ResponseTokensPush(out, Response(probes[i].token, Bare(NoReply)));
  }

  predicate Overdue(p: LiveProbe, now: int) {
    p.timeoutAt < now
  }

  /** A probe may be answered up to and including its deadline. */
  function InTime(now: int): LiveProbe -> bool {
    (p: LiveProbe) => now <= p.timeoutAt
  }

  function FirstWith(probes: seq<LiveProbe>, sequence: u16): (r: Option<nat>)
    ensures r.Some? ==> r.value < |probes| && probes[r.value].sequence == sequence
    ensures r.Some? ==> forall i :: 0 <= i < r.value ==> probes[i].sequence != sequence
    ensures r.None? ==> forall i :: 0 <= i < |probes| ==> probes[i].sequence != sequence
  {
    if probes == [] then None
    else if probes[0].sequence == sequence then Some(0)
    else match FirstWith(probes[1..], sequence) case Some(i) => Some(i + 1) case None => None
  }

  /** Every live probe holds the number of its draw. */
  ghost predicate Numbered(probes: seq<LiveProbe>, draws: seq<nat>) {
    |draws| == |probes| && forall j :: 0 <= j < |probes| ==> probes[j].sequence == Drawn(draws[j])
  }

  /** Looking a probe up by its own number finds it exactly when no earlier entry was drawn a
      multiple of 32102 draws away. */
  lemma LookupIsRightIff(probes: seq<LiveProbe>, draws: seq<nat>, i: nat)
    requires Numbered(probes, draws) && i < |probes|
    ensures FirstWith(probes, probes[i].sequence) == Some(i)
            <==> forall j :: 0 <= j < i ==> Abs((draws[j] as int) - draws[i]) % PORT_COUNT != 0
  {
    forall j | 0 <= j < i
      ensures probes[j].sequence == probes[i].sequence <==> Abs((draws[j] as int) - draws[i]) % PORT_COUNT == 0
    {
      if draws[j] <= draws[i] {
        DrawsCollideIff(draws[j], draws[i]);
      } else {
        DrawsCollideIff(draws[i], draws[j]);
      }
    }
  }

  /** All live probes come from the last 32102 draws. */
  ghost predicate InWindow(draws: seq<nat>, total: nat) {
    && (forall j :: 0 <= j < |draws| ==> draws[j] < total <= draws[j] + PORT_COUNT)
    && (forall j, k :: 0 <= j < k < |draws| ==> draws[j] != draws[k])
  }

  /** Within the window every number is unique and every lookup finds the very probe. */
  lemma FindsTheVeryProbe(probes: seq<LiveProbe>, draws: seq<nat>, total: nat, i: nat)
    requires Numbered(probes, draws) && InWindow(draws, total) && i < |probes|
    ensures FirstWith(probes, probes[i].sequence) == Some(i)
    ensures forall j :: 0 <= j < |probes| && j != i ==> probes[j].sequence != probes[i].sequence
  {
    forall j | 0 <= j < |probes| && j != i ensures probes[j].sequence != probes[i].sequence {
      DrawsInWindowDiffer(Min(draws[j], draws[i]), Max(draws[j], draws[i]));
    }
  }

  /** Without the window the lookup can name the wrong probe: one probe outlives a whole round of
      sequence numbers, and the probe drawn 32102 draws later shares its number. */
  lemma OutlivingTheWindowMisroutes(veteran: LiveProbe, recruit: LiveProbe, k: nat)
    requires veteran.sequence == Drawn(k) && recruit.sequence == Drawn(k + PORT_COUNT)
    ensures FirstWith([veteran, recruit], recruit.sequence) == Some(0)
  {
    DrawsCollideIff(k, k + PORT_COUNT);
  }

  class ProbeTable {
    var probes: seq<LiveProbe>
    var nextSequence: u16
    /** How many numbers were drawn so far, and which draw each live probe holds. */
    ghost var total: nat
    ghost var draws: seq<nat>

    ghost predicate Valid()
      reads this
    {
      && Numbered(probes, draws)
      && nextSequence == Drawn(total)
      && (forall i :: 0 <= i < |draws| ==> draws[i] < total)
      && (forall i, j :: 0 <= i < j < |draws| ==> draws[i] != draws[j])
    }

    constructor ()
      ensures Valid() && probes == [] && nextSequence == MIN_PORT && total == 0
    {
      probes, nextSequence := [], MIN_PORT;
      total, draws := 0, [];
    }

    /** `next_sequence`: the result is a function of how often it was called before. */
    method NextSequence() returns (s: u16)
      requires Valid()
      modifies this`nextSequence, this`total
      ensures Valid() && s == Drawn(old(total)) && total == old(total) + 1
    {
      s := nextSequence;
      nextSequence := if s == MAX_PORT then MIN_PORT else s + 1;
      total := total + 1;
      DrawsStepByOne(total - 1);
    }

    /** `alloc`: a full table takes no probe and draws no number. */
    method Alloc(token: i32, now: int, timeout: i32) returns (r: Option<nat>)
      requires Valid()
      modifies this
      ensures Valid()
      ensures r.None? <==> |old(probes)| >= MAX_PROBES
      ensures r.None? ==> probes == old(probes) && total == old(total) && draws == old(draws)
      ensures r.Some? ==> r.value == |old(probes)| && total == old(total) + 1 && draws == old(draws) + [old(total)]
      ensures r.Some? ==> probes == old(probes)
                                    + [LiveProbe(token, Drawn(old(total)), Icmp, UNSPECIFIED, UNSPECIFIED, now,
                                             now + Max(timeout, 0) * SECOND, None)]
    {
      if |probes| >= MAX_PROBES {
        return None;
      }
      var sequence := NextSequence();
      var deadline := now + Max(timeout, 0) * SECOND;
      probes := probes + [LiveProbe(token, sequence, Icmp, UNSPECIFIED, UNSPECIFIED, now, deadline, None)];
      draws := draws + [total - 1];
      r := Some(|probes| - 1);
    }

    /** `remove`. */
    method Remove(idx: nat) returns (p: LiveProbe)
      requires Valid() && idx < |probes|
      modifies this`probes, this`draws
      ensures Valid() && p == old(probes[idx])
      ensures probes == SwapRemove(old(probes), idx) && draws == SwapRemove(old(draws), idx)
    {
      p := probes[idx];
      probes := SwapRemove(probes, idx);
      draws := SwapRemove(draws, idx);
    }

    /** In-place edit of one entry that leaves its sequence alone. */
    method Update(idx: nat, p: LiveProbe)
      requires Valid() && idx < |probes| && p.sequence == probes[idx].sequence
      modifies this`probes
      ensures Valid() && probes == old(probes)[idx := p]
    {
      probes := probes[idx := p];
    }

    /** `table.probes[idx].sequence = table.next_sequence()`. */
    method Redraw(idx: nat)
      requires Valid() && idx < |probes|
      modifies this
      ensures Valid() && total == old(total) + 1 && draws == old(draws)[idx := old(total)]
      ensures probes == old(probes)[idx := old(probes)[idx].(sequence := Drawn(old(total)))]
    {
      var next := NextSequence();
      probes := probes[idx := probes[idx].(sequence := next)];
      draws := draws[idx := total - 1];
    }

    /** `find_by_sequence`: the first live probe with that number. */
    method FindBySequence(sequence: u16) returns (r: Option<nat>)
      ensures r == FirstWith(probes, sequence)
    {
      for i := 0 to |probes|
        invariant forall j :: 0 <= j < i ==> probes[j].sequence != sequence
      {
        if probes[i].sequence == sequence {
          return Some(i);
        }
      }
      r := None;
    }

    /** `expire`: exactly the overdue probes leave, one `no-reply` each, although every removal
        moves the last entry into the hole. */
    method Expire(now: int) returns (out: seq<Response>)
      requires Valid()
      modifies this`probes, this`draws
      ensures Valid()
      ensures multiset(probes) == Kept(old(probes), InTime(now))
      ensures forall i :: 0 <= i < |probes| ==> now <= probes[i].timeoutAt
      ensures forall i :: 0 <= i < |out| ==> out[i].kind == Bare(NoReply)
      ensures multiset(ResponseTokens(out)) + multiset(Tokens(probes)) == multiset(Tokens(old(probes)))
    {
      hide Filter, SwapRemove, Kept, Tokens, ResponseTokens, Once, Numbered;
      ghost var keep := InTime(now);
      out := [];
      var i := 0;
      while i < |probes|
        invariant 0 <= i <= |probes| && Valid()
        invariant forall j :: 0 <= j < i ==> !Overdue(probes[j], now)
        invariant forall j :: 0 <= j < |out| ==> out[j].kind == Bare(NoReply)
        invariant Kept(probes, keep) == Kept(old(probes), keep)
        invariant multiset(ResponseTokens(out)) + multiset(Tokens(probes)) == multiset(Tokens(old(probes)))
        decreases |probes| - i
      {
        if Overdue(probes[i], now) {
          OverdueLeaves(probes, i, now, out);
          var p := Remove(i);
          out := out + [Response(p.token, Bare(NoReply))];
        } else {
          i := i + 1;
        }
      }
      KeptAll(probes, keep);
    }

    /** `next_timeout`: how long until the earliest deadline, never negative. */
    method NextTimeout(now: int) returns (r: Option<nat>)
      ensures r.None? <==> probes == []
      ensures r.Some? ==> exists i :: 0 <= i < |probes| && r.value == Max(probes[i].timeoutAt - now, 0)
      ensures r.Some? ==> forall i :: 0 <= i < |probes| ==> r.value <= Max(probes[i].timeoutAt - now, 0)
    {
      r := None;
      for i := 0 to |probes|
        invariant r.None? <==> i == 0
        invariant r.Some? ==> exists j :: 0 <= j < i && r.value == Max(probes[j].timeoutAt - now, 0)
        invariant r.Some? ==> forall j :: 0 <= j < i ==> r.value <= Max(probes[j].timeoutAt - now, 0)
      {
        var left: nat := Max(probes[i].timeoutAt - now, 0);
        if r.None? || left < r.value {
          r := Some(left);
        }
      }
    }
  }

  lemma DrawsStepByOne(k: nat)
    ensures Drawn(k + 1) == if Drawn(k) == MAX_PORT then MIN_PORT else Drawn(k) + 1
  {
    var q, r := k / PORT_COUNT, k % PORT_COUNT;
    assert k == PORT_COUNT * q + r;
    if r == PORT_COUNT - 1 {
      assert k + 1 == PORT_COUNT * (q + 1);
      MultipleHasNoRest(q + 1);
    } else {
      assert (k + 1) / PORT_COUNT == q;
    }
  }
}
