// Jitter (stats.rs): what the running figures say about the differences between successive replies.
module Jitter {
  import opened Common
  import opened Stats

  /** The difference of every reply to the one before; the first has none. */
  function Jitters(rtts: seq<int>): (r: seq<int>)
    ensures |r| == |rtts|
  {
    if rtts == [] then []
    else
      var n := |rtts| - 1;
      Jitters(rtts[..n]) + [if n == 0 then 0 else Abs(rtts[n] - rtts[n - 1])]
  }

  function Smoothed(jinta: int, j: int): int {
    jinta + j - (jinta + 8) / 16
  }

  /** The state after one more reply, with difference `j`, as far as jitter goes. */
  predicate StepsBy(s: Rtts, s': Rtts, first: bool, x: int, j: int)
    requires s.returned >= 0
  {
    && s'.last == x && s'.jitter == j
    && s'.jworst == (if first then 0 else Max(j, s.jworst))
    && s'.javg == s.javg + TruncDiv(j - s.javg, s.returned + 1)
    && s'.jinta == Smoothed(s.jinta, j)
  }

  lemma AfterRttSteps(s: Rtts, x: int)
    requires s.returned >= 0 && (s.returned == 0 ==> s == NO_RTTS)
    ensures StepsBy(s, AfterRtt(s, x), s.returned == 0, x, if s.returned == 0 then 0 else Abs(x - s.last))
  {
    hide NextMean, Deviation, TruncDiv;
  }

  lemma FoldedLast(rtts: seq<int>)
    requires rtts != []
    ensures var n := |rtts| - 1;
            && Folded(rtts) == AfterRtt(Folded(rtts[..n]), rtts[n]) && (n == 0 ==> Folded(rtts[..n]) == NO_RTTS)
            && (n > 0 ==> Folded(rtts[..n]).last == rtts[n - 1])
  {
    hide NextMean, Deviation, TruncDiv;
    var n := |rtts| - 1;
    if n > 0 {
      assert rtts[..n][n - 1] == rtts[n - 1];
    }
  }

  lemma LastJitter(rtts: seq<int>)
    requires rtts != []
    ensures var n := |rtts| - 1; Jitters(rtts)[n] == if n == 0 then 0 else Abs(rtts[n] - rtts[n - 1])
  {
  }

  /** One reply, seen from the jitter figures. */
  lemma JitterStep(rtts: seq<int>)
    requires rtts != []
    ensures var n := |rtts| - 1;
            StepsBy(Folded(rtts[..n]), Folded(rtts), n == 0, rtts[n], Jitters(rtts)[n])
  {
    LastJitter(rtts);
    FoldedLast(rtts);
    hide AfterRtt, StepsBy, Folded, Jitters;
    AfterRttSteps(Folded(rtts[..|rtts| - 1]), rtts[|rtts| - 1]);
  }

  /** `jitter` is the last difference and `jworst` the greatest there was. */
  lemma {:induction false} WorstJitterIsTheGreatest(rtts: seq<int>)
    requires rtts != []
    ensures Folded(rtts).jitter == Jitters(rtts)[|rtts| - 1]
    ensures IsGreatest(Folded(rtts).jworst, Jitters(rtts))
  {
    hide Folded;
    var n := |rtts| - 1;
    JitterStep(rtts);
    var all := Jitters(rtts);
    assert all[n] == Folded(rtts).jitter;
    if n > 0 {
      WorstJitterIsTheGreatest(rtts[..n]);
      assert all == Jitters(rtts[..n]) + [all[n]];
      GreatestPush(Jitters(rtts[..n]), all[n], Folded(rtts[..n]).jworst);
    } else {
      assert rtts[..0] == [];
      assert all == [0];
    }
  }

  lemma GreatestPush(before: seq<int>, x: int, greatest: int)
    requires IsGreatest(greatest, before)
    ensures IsGreatest(Max(x, greatest), before + [x])
  {
    ExtremesStep(before, x, LeastOf(before), greatest);
  }

  ghost function LeastOf(s: seq<int>): (m: int)
    requires s != []
    ensures IsLeast(m, s)
  {
    if |s| == 1 then s[0]
    else
      var m := LeastOf(s[..|s| - 1]);
      assert s == s[..|s| - 1] + [s[|s| - 1]];
      if s[|s| - 1] < m then s[|s| - 1] else m
  }

  lemma JittersPush(rtts: seq<int>)
    requires rtts != []
    ensures Jitters(rtts) == Jitters(rtts[..|rtts| - 1]) + [Jitters(rtts)[|rtts| - 1]]
  {
  }

  lemma SumPush(before: seq<int>, x: int)
    ensures Sum(before + [x]) == Sum(before) + x
  {
    assert (before + [x])[..|before|] == before;
  }

  lemma DivisionLeaves(d: int, n: int)
    requires n > 0
    ensures -n < d - TruncDiv(d, n) * n < n
  {
    var q, r := Abs(d) / n, Abs(d) % n;
    assert Abs(d) == q * n + r;
    if d < 0 {
      assert (-q) * n == -(q * n);
    }
  }

  lemma DriftStep(n: int, a: int, b: int, j: int, sum: int)
    requires n >= 0 && -(n + 1) < (j - a) - (b - a) * (n + 1) < n + 1
    requires -(n * (n - 1)) <= 2 * (n * a - sum) <= n * (n - 1)
    ensures -((n + 1) * n) <= 2 * ((n + 1) * b - (sum + j)) <= (n + 1) * n
  {
    Distribute(n, a, b);
    Square(n);
  }

  lemma Distribute(n: int, a: int, b: int)
    ensures (b - a) * (n + 1) == (n + 1) * b - n * a - a
  {
  }

  lemma Square(n: int)
    ensures (n + 1) * n == n * (n - 1) + 2 * n
  {
  }

  /** `javg` is the mean of all differences up to what the divisions threw away: it is off by at most
      (n - 1) / 2. */
  lemma {:induction false} JitterMeanErrorBound(rtts: seq<int>)
    ensures var n: int := |rtts|;
            -(n * (n - 1)) <= 2 * (n * Folded(rtts).javg - Sum(Jitters(rtts))) <= n * (n - 1)
  {
    if rtts != [] {
      hide Folded, TruncDiv, Jitters;
      var n := |rtts| - 1;
      JittersPush(rtts);
      JitterMeanErrorBound(rtts[..n]);
      JitterStep(rtts);
      var a, b, j := Folded(rtts[..n]).javg, Folded(rtts).javg, Jitters(rtts)[n];
      SumPush(Jitters(rtts[..n]), j);
      DivisionLeaves(j - a, n + 1);
      DriftStep(n, a, b, j, Sum(Jitters(rtts[..n])));
    }
  }

  /** `jinta` is the estimator of RFC 1889 appendix A.8 times sixteen: each reply keeps fifteen
      sixteenths of it, rounded to the nearest, and adds the new difference. */
  lemma EstimatorKeepsFifteenSixteenths(rtts: seq<int>)
    requires rtts != []
    ensures var n := |rtts| - 1;
            var exact := 15 * Folded(rtts[..n]).jinta + 16 * Jitters(rtts)[n];
            exact - 8 <= 16 * Folded(rtts).jinta <= exact + 7
  {
    JitterStep(rtts);
    hide Folded, Jitters;
  }
}
