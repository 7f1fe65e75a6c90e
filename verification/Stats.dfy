// Per-hop round-trip statistics (stats.rs). Real arithmetic stands for `f64`; an RTT-like value is
// a whole number of microseconds, truncated after every update as the original does.
module Stats {
  import opened Common

  /** What replies have left behind. */
  datatype Rtts = Rtts(returned: int, last: int, best: int, worst: int, avg: int, ssd: int,
                       jitter: int, javg: int, jworst: int, jinta: int)

  datatype Statistics = Statistics(xmit: int, transit: int, rtts: Rtts)

  const NO_RTTS := Rtts(0, 0, 0, 0, 0, 0, 0, 0, 0, 0)
  const NO_STATS := Statistics(0, 0, NO_RTTS)

  // ----- One step -----

  /** The truncated running mean: `m` observations before, `avg` their truncated mean. */
  function NextMean(avg: int, m: nat, rtt: int): int {
    TruncDiv(avg * m + rtt, m + 1)
  }

  /** Deviation from the old mean times deviation from the new one. */
  function Deviation(x: int, a: int, b: int): int {
    (x - a) * (x - b)
  }

  /** The effect of one reply. The first reply starts everything but `javg` afresh. */
  function AfterRtt(s: Rtts, rtt: int): Rtts
    requires s.returned >= 0
  {
    var first := s.returned == 0;
    var n := s.returned + 1;
    var jitter := if first then 0 else Abs(rtt - s.last);
    var avg := NextMean(if first then 0 else s.avg, s.returned, rtt);
    var jinta := if first then 0 else s.jinta;
    Rtts(n, rtt,
         if first || rtt < s.best then rtt else s.best,
         if first || rtt > s.worst then rtt else s.worst,
         avg,
         if first then Deviation(rtt, 0, avg) else s.ssd + Deviation(rtt, s.avg, avg),
         jitter,
         s.javg + TruncDiv(jitter - s.javg, n),
         if first then 0 else Max(jitter, s.jworst),
         jinta + jitter - (jinta + 8) / 16)
  }

  function AfterSend(s: Statistics): Statistics {
    s.(xmit := s.xmit + 1, transit := 1)
  }

  function AfterReply(s: Statistics, rtt: int): Statistics
    requires s.rtts.returned >= 0
  {
    s.(transit := 0, rtts := AfterRtt(s.rtts, rtt))
  }

  /** Loss in thousandths of a percent, the probe in flight not counted. */
  function LossOf(s: Statistics): int {
    var sent := s.xmit - s.transit;
    if sent <= 0 then 0 else TruncDiv(100_000 * (sent - s.rtts.returned), sent)
  }

  function DroppedOf(s: Statistics): int {
    s.xmit - s.transit - s.rtts.returned
  }

  // ----- The class -----

  /** `as i32` on a real number: truncation toward zero. */
  function Truncate(r: real): int {
    if r >= 0.0 then r.Floor else -((-r).Floor)
  }

  lemma RealQuotient(a: real, b: real, c: real)
    requires b != 0.0 && a == c * b
    ensures a / b == c
  {
  }

  lemma FloorOfQuotient(m: nat, n: nat)
    requires n > 0
    ensures (m as real / n as real).Floor == m / n
  {
    var q, r := m / n, m % n;
    assert m == q * n + r;
    assert m as real == q as real * n as real + r as real;
    assert m as real / n as real == q as real + r as real / n as real;
    assert 0.0 <= r as real / n as real < 1.0;
  }

  lemma TruncateOfQuotient(m: int, n: nat)
    requires n > 0
    ensures Truncate(m as real / n as real) == TruncDiv(m, n)
  {
    if m >= 0 {
      FloorOfQuotient(m, n);
      assert m as real / n as real >= 0.0;
    } else {
      FloorOfQuotient(-m, n);
      assert -(m as real / n as real) == (-m) as real / n as real;
      assert m as real / n as real < 0.0;
    }
  }

  /** The incremental form of the original is the mean of `m` copies of `avg` and the new value. */
  lemma MeanForms(avg: int, m: nat, rtt: int)
    ensures Truncate(avg as real + (rtt - avg) as real / (m + 1) as real) == NextMean(avg, m, rtt)
  {
    var n := m + 1;
    var total := avg * m + rtt;
    assert total == avg * n + (rtt - avg);
    assert total as real == avg as real * n as real + (rtt - avg) as real;
    assert avg as real + (rtt - avg) as real / n as real == total as real / n as real;
    TruncateOfQuotient(total, n);
  }

  lemma LossForms(returned: int, sent: nat)
    requires sent > 0
    ensures Truncate(1000.0 * (100.0 - 100.0 * returned as real / sent as real))
            == TruncDiv(100_000 * (sent - returned), sent)
  {
    var d := sent as real;
    var q := returned as real / d;
    RealQuotient(100.0 * returned as real, d, 100.0 * q);
    var whole := 100_000 * (sent - returned);
    assert whole as real == 100_000.0 * d - 100_000.0 * (q * d);
    RealQuotient(whole as real, d, 100_000.0 - 100_000.0 * q);
    TruncateOfQuotient(whole, sent);
  }

  class RttStats {
    var xmit: int
    var returned: int
    var transit: int
    var last: int
    var best: int
    var worst: int
    var avg: int
    var ssd: int
    var jitter: int
    var javg: int
    var jworst: int
    var jinta: int

    function View(): Statistics
      reads this
    {
      Statistics(xmit, transit, Rtts(returned, last, best, worst, avg, ssd, jitter, javg, jworst, jinta))
    }

    constructor ()
      ensures View() == NO_STATS
    {
      xmit, returned, transit, last, best, worst, avg, ssd := 0, 0, 0, 0, 0, 0, 0, 0;
      jitter, javg, jworst, jinta := 0, 0, 0, 0;
    }

    /** Afterwards no reply and no send is counted. */
    method Clear()
      modifies this
      ensures View() == NO_STATS
    {
      xmit, returned, transit, last, best, worst, avg, ssd := 0, 0, 0, 0, 0, 0, 0, 0;
      jitter, javg, jworst, jinta := 0, 0, 0, 0;
    }

    method RecordSend()
      modifies this
      ensures View() == AfterSend(old(View()))
    {
      xmit := xmit + 1;
      transit := 1;
    }

    /** The first half of an update: jitter against the last reply, extremes; the first reply
        starts everything but `javg` afresh. */
    method UpdateExtremes(rtt: int)
      modifies `last, `best, `worst, `avg, `ssd, `jitter, `jworst, `jinta
      ensures last == rtt && (old(returned) >= 1 ==> avg == old(avg) && ssd == old(ssd) && jinta == old(jinta))
      ensures old(returned) < 1 ==> avg == 0 && ssd == 0 && jinta == 0
      ensures best == if old(returned) < 1 || rtt < old(best) then rtt else old(best)
      ensures worst == if old(returned) < 1 || rtt > old(worst) then rtt else old(worst)
      ensures jitter == if old(returned) < 1 then 0 else Abs(rtt - old(last))
      ensures jworst == if old(returned) < 1 then 0 else Max(jitter, old(jworst))
    {
      jitter := Abs(rtt - last);
      last := rtt;
      if returned < 1 {
        best, worst, avg, ssd, jitter, jworst, jinta := rtt, rtt, 0, 0, 0, 0, 0;
      }
      if rtt < best {
        best := rtt;
      }
      if rtt > worst {
        worst := rtt;
      }
      if jitter > jworst {
        jworst := jitter;
      }
    }

    /** The original's sequence of updates, in its order. */
    method RecordReply(rtt: int)
      requires returned >= 0
      modifies this
      ensures View() == AfterReply(old(View()), rtt)
    {
      hide NextMean, TruncDiv, Truncate, Deviation;
      UpdateExtremes(rtt);
      returned := returned + 1;
      var oldavg := avg;
      MeanForms(oldavg, returned - 1, rtt);
      avg := Truncate(avg as real + (rtt - oldavg) as real / returned as real);
      ssd := ssd + Deviation(rtt, oldavg, avg);
      var oldjavg := javg;
      javg := javg + TruncDiv(jitter - oldjavg, returned);
      jinta := jinta + jitter - (jinta + 8) / 16;
      transit := 0;
    }

    method Loss() returns (r: int)
      requires xmit >= transit
      ensures r == LossOf(View())
    {
      var denominator := xmit - transit;
      if denominator == 0 {
        return 0;
      }
      LossForms(returned, denominator);
      r := Truncate(1000.0 * (100.0 - 100.0 * returned as real / denominator as real));
    }

    method Dropped() returns (r: int)
      ensures r == DroppedOf(View())
    {
      r := (xmit - transit) - returned;
    }
  }

  // ----- Over a whole series of replies -----

  function Folded(rtts: seq<int>): (r: Rtts)
    ensures r.returned == |rtts|
  {
    if rtts == [] then NO_RTTS else AfterRtt(Folded(rtts[..|rtts| - 1]), rtts[|rtts| - 1])
  }

  predicate NonNegative(rtts: seq<int>) {
    forall i :: 0 <= i < |rtts| ==> rtts[i] >= 0
  }

  predicate IsLeast(m: int, rtts: seq<int>) {
    m in rtts && forall i :: 0 <= i < |rtts| ==> m <= rtts[i]
  }

  predicate IsGreatest(m: int, rtts: seq<int>) {
    m in rtts && forall i :: 0 <= i < |rtts| ==> rtts[i] <= m
  }

  lemma LessFromProducts(a: int, b: int, n: nat)
    requires a * n < b * n
    ensures a < b
  {
    assert (b - a) * n > 0;
  }

  lemma QuotientBetween(lo: int, hi: int, m: nat, n: nat)
    requires n > 0 && lo * n <= m <= hi * n
    ensures lo <= m / n <= hi
  {
    var q, r := m / n, m % n;
    assert m == q * n + r;
    assert (q + 1) * n == q * n + n && (hi + 1) * n == hi * n + n;
    LessFromProducts(lo, q + 1, n);
    LessFromProducts(q, hi + 1, n);
  }

  /** A truncated mean lies between the old mean and the new value. */
  lemma MeanBetween(avg: nat, m: nat, rtt: nat)
    ensures Min(avg, rtt) <= NextMean(avg, m, rtt) <= Max(avg, rtt)
    ensures 0 <= avg * m + rtt
  {
    var lo, hi := Min(avg, rtt), Max(avg, rtt);
    assert lo * m <= avg * m <= hi * m;
    assert lo * (m + 1) == lo * m + lo && hi * (m + 1) == hi * m + hi;
    QuotientBetween(lo, hi, avg * m + rtt, m + 1);
  }

  lemma JitterMeanBetween(javg: nat, jitter: nat, n: nat)
    requires n > 0
    ensures Min(javg, jitter) <= javg + TruncDiv(jitter - javg, n) <= Max(javg, jitter)
  {
    hide TruncDiv;
    if jitter >= javg {
      TruncatedPart(jitter - javg, n);
    } else {
      TruncatedPart(javg - jitter, n);
    }
  }

  /** Truncated division takes a part of the distance, whichever the direction. */
  lemma TruncatedPart(d: int, n: nat)
    requires d >= 0 && n > 0
    ensures 0 <= TruncDiv(d, n) <= d && TruncDiv(-d, n) == -TruncDiv(d, n)
  {
    PartOfItself(d, n);
    TruncDivParts(d, n);
  }

  lemma PartOfItself(d: nat, n: nat)
    requires n > 0
    ensures 0 <= d / n <= d
  {
    assert d * 1 <= d * n;
    QuotientBetween(0, d, d, n);
  }

  lemma TruncDivParts(d: int, n: nat)
    requires d >= 0 && n > 0
    ensures TruncDiv(d, n) == d / n && TruncDiv(-d, n) == -(d / n)
  {
    if d == 0 {
      assert 0 / n == 0 by {
        QuotientBetween(0, 0, 0, n);
      }
    }
  }

  lemma ProductOfAgreeingSigns(a: int, b: int)
    requires (a >= 0 && b >= 0) || (a <= 0 && b <= 0)
    ensures a * b >= 0
  {
  }

  /** The deviations from the old and from the new mean have the same sign, so `ssd` never falls. */
  lemma SsdGrows(avg: nat, m: nat, rtt: nat)
    ensures Deviation(rtt, avg, NextMean(avg, m, rtt)) >= 0
  {
    MeanBetween(avg, m, rtt);
    ProductOfAgreeingSigns(rtt - avg, rtt - NextMean(avg, m, rtt));
  }

  /** What holds of the statistics after any replies at all. */
  ghost predicate Coherent(s: Rtts, rtts: seq<int>) {
    && rtts != []
    && s.last == rtts[|rtts| - 1]
    && IsLeast(s.best, rtts)
    && IsGreatest(s.worst, rtts)
    && s.best <= s.avg <= s.worst
    && 0 <= s.jitter <= s.jworst <= s.worst - s.best
    && 0 <= s.javg <= s.jworst
    && 0 <= s.jinta <= 16 * s.jworst
    && 0 <= s.ssd
  }

  lemma ExtremesStep(before: seq<int>, x: int, least: int, greatest: int)
    requires before != [] ==> IsLeast(least, before) && IsGreatest(greatest, before)
    ensures IsLeast(if before == [] || x < least then x else least, before + [x])
    ensures IsGreatest(if before == [] || x > greatest then x else greatest, before + [x])
  {
    var all := before + [x];
    assert all[|before|] == x;
    if before != [] {
      var i :| 0 <= i < |before| && before[i] == least;
      assert all[i] == least;
      var j :| 0 <= j < |before| && before[j] == greatest;
      assert all[j] == greatest;
    }
  }

  lemma CoherentStep(before: seq<int>, s: Rtts, x: nat)
    requires NonNegative(before) && before != [] && Coherent(s, before) && s.returned == |before|
    ensures Coherent(AfterRtt(s, x), before + [x])
    ensures AfterRtt(s, x).ssd >= s.ssd
  {
    assert s.best in before && s.worst in before && s.last in before;
    ExtremesStep(before, x, s.best, s.worst);
    assert s.best <= s.last <= s.worst;
    MeanBetween(s.avg, |before|, x);
    JitterMeanBetween(s.javg, Abs(x - s.last), |before| + 1);
    SsdGrows(s.avg, |before|, x);
    hide IsLeast, IsGreatest, NextMean, TruncDiv, Deviation;
  }

  lemma CoherentFirst(x: nat)
    ensures Coherent(AfterRtt(NO_RTTS, x), [x])
  {
    ExtremesStep([], x, 0, 0);
    assert [] + [x] == [x];
    assert AfterRtt(NO_RTTS, x).avg == x by {
      assert 0 * 0 + x == x && TruncDiv(x, 1) == x;
    }
  }

  /** For every series of non-negative RTTs: exact extremes, the mean between them, every jitter
      figure within its bounds, the deviation sum non-negative and never falling. */
  lemma {:induction false} StatisticsAreCoherent(rtts: seq<int>)
    requires NonNegative(rtts) && rtts != []
    ensures Coherent(Folded(rtts), rtts)
    ensures Folded(rtts).ssd >= Folded(rtts[..|rtts| - 1]).ssd
  {
    var n := |rtts| - 1;
    var x := rtts[n];
    if n == 0 {
      assert rtts == [x] && rtts[..0] == [];
      CoherentFirst(x);
    } else {
      var before := rtts[..n];
      assert rtts == before + [x];
      StatisticsAreCoherent(before);
      CoherentStep(before, Folded(before), x);
    }
  }

  /** While every RTT stays below 2^27 microseconds, no intermediate value of the jitter estimator
      (RFC 1889 appendix A.8, kept times sixteen) leaves the range of an `i32`. */
  lemma JitterEstimatorFits(rtts: seq<int>, x: int)
    requires NonNegative(rtts) && forall i :: 0 <= i < |rtts| ==> rtts[i] < 0x800_0000
    requires 0 <= x < 0x800_0000
    ensures var s := Folded(rtts);
            && 0 <= s.jinta + 8 < 0x8000_0000
            && 0 <= Abs(x - s.last) < 0x800_0000
            && 0 <= AfterRtt(s, x).jinta < 0x8000_0000
            && 0 <= s.avg < 0x800_0000 && 0 <= s.javg < 0x800_0000
  {
    if rtts != [] {
      StatisticsAreCoherent(rtts);
    }
    var all := rtts + [x];
    assert all[..|rtts|] == rtts;
    StatisticsAreCoherent(all);
    hide AfterRtt;
  }

  // ----- The truncated mean -----

  function Sum(rtts: seq<int>): int {
    if rtts == [] then 0 else Sum(rtts[..|rtts| - 1]) + rtts[|rtts| - 1]
  }

  function SumOfSquares(rtts: seq<int>): int {
    if rtts == [] then 0 else SumOfSquares(rtts[..|rtts| - 1]) + rtts[|rtts| - 1] * rtts[|rtts| - 1]
  }

  /** The part of the last division that truncation threw away. */
  function Remainder(rtts: seq<int>): int {
    if rtts == [] then 0
    else
      var n := |rtts| - 1;
      Folded(rtts[..n]).avg * n + rtts[n] - Folded(rtts).avg * (n + 1)
  }

  lemma RemainderBound(a: nat, m: nat, x: nat)
    ensures var b := NextMean(a, m, x);
            0 <= a * m + x - b * (m + 1) < m + 1
  {
    MeanBetween(a, m, x);
    var total := a * m + x;
    assert total == (total / (m + 1)) * (m + 1) + total % (m + 1);
  }

  lemma AverageOfStep(rtts: seq<int>)
    requires rtts != []
    ensures Folded(rtts).avg == NextMean(Folded(rtts[..|rtts| - 1]).avg, |rtts| - 1, rtts[|rtts| - 1])
  {
    hide NextMean;
    if |rtts| == 1 {
      assert rtts[..0] == [];
    }
  }

  lemma AverageStep(rtts: seq<int>)
    requires NonNegative(rtts) && rtts != []
    ensures 0 <= Remainder(rtts) < |rtts|
  {
    var n := |rtts| - 1;
    var before := rtts[..n];
    if n > 0 {
      StatisticsAreCoherent(before);
      assert Folded(before).best in before;
    }
    AverageOfStep(rtts);
    hide Folded, NextMean;
    assert Folded(before).avg >= 0;
    RemainderBound(Folded(before).avg, n, rtts[n]);
  }

  lemma BoundStep(n: nat, a: int, b: int, x: int, r: int, sum: int)
    requires a * n + x - b * (n + 1) == r && 0 <= r <= n
    requires 2 * sum - n * (n - 1) <= 2 * (n * a) <= 2 * sum
    ensures 2 * (sum + x) - (n + 1) * n <= 2 * ((n + 1) * b) <= 2 * (sum + x)
  {
    assert n * a == a * n && (n + 1) * b == b * (n + 1);
    assert (n + 1) * n == n * (n - 1) + 2 * n;
  }

  /** Truncation loses at most `k - 1` at step `k`: the mean never exceeds the true mean and lags it
      by at most (n - 1) / 2. */
  lemma {:induction false} MeanErrorBound(rtts: seq<int>)
    requires NonNegative(rtts)
    ensures 2 * Sum(rtts) - |rtts| * (|rtts| - 1) <= 2 * (|rtts| * Folded(rtts).avg) <= 2 * Sum(rtts)
  {
    if rtts != [] {
      hide Folded;
      var n := |rtts| - 1;
      MeanErrorBound(rtts[..n]);
      AverageStep(rtts);
      BoundStep(n, Folded(rtts[..n]).avg, Folded(rtts).avg, rtts[n], Remainder(rtts), Sum(rtts[..n]));
    }
  }

  // ----- The deviation sum -----

  /** The exact price of truncation in `ssd`. */
  function Drift(rtts: seq<int>): int {
    if rtts == [] then 0
    else
      var n := |rtts| - 1;
      Drift(rtts[..n]) + Remainder(rtts) * (Folded(rtts[..n]).avg + Folded(rtts).avg)
  }

  /** With `r` what the division lost, one update moves `ssd + n * avg^2` by `x^2 - r (a + b)`. */
  lemma WelfordStep(a: int, b: int, n: int, x: int, r: int)
    requires a * n + x - b * (n + 1) == r
    ensures Deviation(x, a, b) == x * x - (n + 1) * (b * b) + n * (a * a) - r * (a + b)
  {
    hide Deviation;
    Expand(x, a, b, n, r, a);
    Expand(x, a, b, n, r, b);
    ProductOfDifferences(x, a, b);
    Collect(a, b, n, r);
    AddUp(Deviation(x, a, b), x * x, x * a, x * b, b * a, (b * a) * n, (b * b) * n, b * b, (a * a) * n, r * a, r * b);
  }

  lemma Collect(a: int, b: int, n: int, r: int)
    ensures b * a == a * b && (b * a) * n == (a * b) * n
    ensures (n + 1) * (b * b) == (b * b) * n + b * b && n * (a * a) == (a * a) * n && r * (a + b) == r * a + r * b
  {
  }

  lemma AddUp(d: int, xx: int, xa: int, xb: int, ab: int, abn: int, bbn: int, bb: int, aan: int, ra: int, rb: int)
    requires d == xx - xa - xb + ab && xa == abn + ab - aan + ra && xb == bbn + bb - abn + rb
    ensures d == xx - (bbn + bb) + aan - (ra + rb)
  {
  }

  lemma Expand(x: int, a: int, b: int, n: int, r: int, c: int)
    requires a * n + x - b * (n + 1) == r
    ensures x * c == (b * c) * n + b * c - (a * c) * n + r * c
  {
    assert x == b * n + b - a * n + r;
    assert x * c == (b * n) * c + b * c - (a * n) * c + r * c;
    assert (b * n) * c == (b * c) * n && (a * n) * c == (a * c) * n;
  }

  lemma ProductOfDifferences(x: int, a: int, b: int)
    ensures Deviation(x, a, b) == x * x - x * a - x * b + a * b
  {
  }

  /** For every series: the one-pass `ssd` is the two-pass sum about the truncated mean, less the
      accumulated truncation drift. */
  lemma {:induction false} SsdIdentity(rtts: seq<int>)
    requires NonNegative(rtts)
    ensures Folded(rtts).ssd
            == SumOfSquares(rtts) - |rtts| * (Folded(rtts).avg * Folded(rtts).avg) - Drift(rtts)
  {
    if rtts != [] {
      hide Folded, Remainder, Deviation;
      var n := |rtts| - 1;
      var before, x := rtts[..n], rtts[n];
      SsdIdentity(before);
      AverageStep(rtts);
      var a, b := Folded(before).avg, Folded(rtts).avg;
      WelfordStep(a, b, n, x, Remainder(rtts));
      SsdStep(rtts);
    }
  }

  lemma SsdStep(rtts: seq<int>)
    requires rtts != []
    ensures var n := |rtts| - 1;
            Folded(rtts).ssd
            == Folded(rtts[..n]).ssd + Deviation(rtts[n], Folded(rtts[..n]).avg, Folded(rtts).avg)
  {
    hide NextMean, TruncDiv, Deviation;
    var n := |rtts| - 1;
    if n == 0 {
      assert rtts[..0] == [];
    }
  }

  predicate ExactMeans(rtts: seq<int>) {
    rtts == [] || (Remainder(rtts) == 0 && ExactMeans(rtts[..|rtts| - 1]))
  }

  lemma {:induction false} ExactMeansSum(rtts: seq<int>)
    requires ExactMeans(rtts)
    ensures Drift(rtts) == 0 && |rtts| * Folded(rtts).avg == Sum(rtts)
  {
    if rtts != [] {
      hide Folded;
      var n := |rtts| - 1;
      ExactMeansSum(rtts[..n]);
      ExactSumStep(n, Folded(rtts[..n]).avg, Folded(rtts).avg, rtts[n], Sum(rtts[..n]));
    }
  }

  lemma ExactSumStep(n: nat, a: int, b: int, x: int, sum: int)
    requires a * n + x - b * (n + 1) == 0 && n * a == sum
    ensures (n + 1) * b == sum + x
  {
  }

  /** Everything the divisions of the whole series threw away. */
  function Lost(rtts: seq<int>): int {
    if rtts == [] then 0 else Lost(rtts[..|rtts| - 1]) + Remainder(rtts)
  }

  lemma {:induction false} LostIsGap(rtts: seq<int>)
    ensures |rtts| * Folded(rtts).avg == Sum(rtts) - Lost(rtts)
  {
    if rtts != [] {
      hide Folded;
      var n := |rtts| - 1;
      LostIsGap(rtts[..n]);
      var a, b := Folded(rtts[..n]).avg, Folded(rtts).avg;
      assert n * a == a * n && (n + 1) * b == b * (n + 1);
    }
  }

  /** `ssd` is the true sum of squared deviations, n * ssd = n * sum of squares - square of the sum,
      exactly when what truncation took from the square of the sum is n times what it took from the
      updates. */
  lemma SsdIsExactIff(rtts: seq<int>)
    requires NonNegative(rtts)
    ensures |rtts| * Folded(rtts).ssd == |rtts| * SumOfSquares(rtts) - Sum(rtts) * Sum(rtts)
            <==> Lost(rtts) * (2 * Sum(rtts) - Lost(rtts)) == |rtts| * Drift(rtts)
  {
    hide Folded, SumOfSquares, Sum, Drift, Lost;
    SsdIdentity(rtts);
    LostIsGap(rtts);
    var n, a, q, d, sum, lost := |rtts|, Folded(rtts).avg, SumOfSquares(rtts), Drift(rtts), Sum(rtts), Lost(rtts);
    ScaledSquares(n, a, q);
    assert n * Folded(rtts).ssd == n * (q - n * (a * a)) - n * d;
    SquareOfDifference(sum, lost);
    assert (n * a) * (n * a) == (sum - lost) * (sum - lost);
  }

  lemma SquareOfDifference(sum: int, lost: int)
    ensures (sum - lost) * (sum - lost) == sum * sum - lost * (2 * sum - lost)
  {
    assert (sum - lost) * (sum - lost) == sum * sum - 2 * (sum * lost) + lost * lost;
  }

  /** When no running mean was truncated nothing was lost, so `ssd` is exact. */
  lemma SsdIsExact(rtts: seq<int>)
    requires NonNegative(rtts) && ExactMeans(rtts)
    ensures |rtts| * Folded(rtts).ssd == |rtts| * SumOfSquares(rtts) - Sum(rtts) * Sum(rtts)
  {
    hide Folded, SumOfSquares, Sum;
    ExactMeansSum(rtts);
    LostIsGap(rtts);
    SsdIsExactIff(rtts);
  }

  lemma ScaledSquares(n: int, a: int, q: int)
    ensures n * (q - n * (a * a)) == n * q - (n * a) * (n * a)
  {
    assert (n * a) * (n * a) == n * (n * (a * a));
  }

  lemma Push(before: seq<int>, x: int)
    ensures Folded(before + [x]) == AfterRtt(Folded(before), x)
    ensures Sum(before + [x]) == Sum(before) + x && SumOfSquares(before + [x]) == SumOfSquares(before) + x * x
  {
    hide AfterRtt;
    assert (before + [x])[..|before|] == before;
  }

  /** Mean and `ssd` one reply further. */
  lemma Grows(before: seq<int>, x: int, mean: int)
    requires mean == NextMean(if before == [] then 0 else Folded(before).avg, |before|, x)
    ensures Folded(before + [x]).avg == mean
    ensures Folded(before + [x]).ssd
            == if before == [] then Deviation(x, 0, mean)
               else Folded(before).ssd + Deviation(x, Folded(before).avg, mean)
    ensures Sum(before + [x]) == Sum(before) + x && SumOfSquares(before + [x]) == SumOfSquares(before) + x * x
    ensures Remainder(before + [x])
            == (if before == [] then 0 else Folded(before).avg) * |before| + x - mean * (|before| + 1)
  {
    Push(before, x);
    assert (before + [x])[..|before|] == before;
    hide NextMean, Deviation, TruncDiv;
  }

  lemma TwoReplies(x: int, y: int, a: int, b: int)
    requires a == NextMean(0, 0, x) && b == NextMean(a, 1, y)
    ensures Folded([x, y]).avg == b && Folded([x, y]).ssd == Deviation(x, 0, a) + Deviation(y, a, b)
    ensures Sum([x, y]) == x + y && SumOfSquares([x, y]) == x * x + y * y && Remainder([x, y]) == a + y - 2 * b
  {
    var none: seq<int>, one: seq<int> := [], [x];
    assert none + [x] == one && one + [y] == [x, y];
    hide NextMean, Deviation;
    Grows(none, x, a);
    Grows(one, y, b);
  }

  lemma FirstMean(x: nat)
    ensures NextMean(0, 0, x) == x
  {
  }

  lemma MeanStep(avg: nat, m: nat, x: nat, mean: nat, rest: nat)
    requires avg * m + x == mean * (m + 1) + rest && rest <= m
    ensures NextMean(avg, m, x) == mean
  {
    var total := avg * m + x;
    assert total == total / (m + 1) * (m + 1) + total % (m + 1);
    LessFromProducts(mean, total / (m + 1) + 1, m + 1);
    LessFromProducts(total / (m + 1), mean + 1, m + 1);
  }

  lemma DeviationIs(x: int, a: int, b: int, p: int, q: int)
    requires p == x - a && q == x - b
    ensures Deviation(x, a, b) == p * q
  {
  }

  /** An instance where truncation shows: with replies of 0 and 1 `ssd` is 1 and should be a half. */
  lemma TruncationShows()
    ensures Remainder([0, 1]) == 1
    ensures 2 * Folded([0, 1]).ssd == 2 && 2 * SumOfSquares([0, 1]) - Sum([0, 1]) * Sum([0, 1]) == 1
  {
    hide Folded, Sum, SumOfSquares, Remainder, NextMean, Deviation;
    FirstMean(0);
    MeanStep(0, 1, 1, 0, 1);
    TwoReplies(0, 1, 0, 0);
    DeviationIs(0, 0, 0, 0, 0);
    DeviationIs(1, 0, 0, 1, 1);
  }

  /** An instance where truncation cancels out: with 0, 3 and 0 the second mean is truncated, and
      `ssd` is exact all the same. */
  lemma TruncationCanCancel()
    ensures Remainder([0, 3]) == 1
    ensures 3 * Folded([0, 3, 0]).ssd == 18 && 3 * SumOfSquares([0, 3, 0]) - Sum([0, 3, 0]) * Sum([0, 3, 0]) == 18
  {
    hide Folded, Sum, SumOfSquares, Remainder, NextMean, Deviation;
    FirstMean(0);
    MeanStep(0, 1, 3, 1, 1);
    MeanStep(1, 2, 0, 0, 2);
    TwoReplies(0, 3, 0, 1);
    DeviationIs(0, 0, 0, 0, 0);
    DeviationIs(3, 0, 1, 3, 2);
    DeviationIs(0, 1, 0, -1, 0);
    var two: seq<int> := [0, 3];
    assert two + [0] == [0, 3, 0];
    Grows(two, 0, 0);
  }

  // ----- Loss -----

  lemma FullLoss(returned: nat, sent: nat)
    requires 0 < sent && returned <= sent
    ensures 100_000 * (sent - returned) / sent == 100_000 <==> returned == 0
  {
    var lost: nat := 100_000 * (sent - returned);
    var q, r := lost / sent, lost % sent;
    assert lost == q * sent + r;
    if returned == 0 {
      QuotientBetween(100_000, 100_000, lost, sent);
    } else {
      LessFromProducts(q, 100_000, sent);
    }
  }

  /** As long as no more replies are counted than probes sent and settled, loss is a percentage, and
      it is total exactly when nothing came back. */
  lemma LossIsAPercentage(s: Statistics)
    requires 0 <= s.rtts.returned && s.rtts.returned + s.transit <= s.xmit && s.transit in {0, 1}
    ensures 0 <= DroppedOf(s) <= s.xmit
    ensures 0 <= LossOf(s) <= 100_000
    ensures s.xmit > s.transit ==> (LossOf(s) == 100_000 <==> s.rtts.returned == 0)
  {
    var sent := s.xmit - s.transit;
    if sent > 0 {
      QuotientBetween(0, 100_000, 100_000 * (sent - s.rtts.returned), sent);
      FullLoss(s.rtts.returned, sent);
    }
  }
}
