/**
 * The history report: a summary of the last 30 points of a pool's time
 * series (yield statistics, a stability tier, a TVL trend and a trend strip).
 */
module History {
  import opened Options
  import opened Series
  import Sparkline

  /** One point of the per-pool chart feed; absent or null numbers read as 0. */
  datatype Point = Point(timestamp: string, apy: Option<real>, tvlUsd: Option<real>)

  const WindowSize: nat := 30
  /** Coefficient-of-variation cut-offs of the stability tiers. */
  const StableCv: real := 0.1
  const ModerateCv: real := 0.3
  /** The same cut-offs squared, for comparing with the variance. */
  const StableCvSquared: real := 0.01
  const ModerateCvSquared: real := 0.09
  /** TVL change, in percent, beyond which the trend is UP or DOWN. */
  const TrendPct: real := 5.0

  /** `points[-30:]`: the most recent `min(30, n)` points, in order. */
  function Recent(points: seq<Point>): (r: seq<Point>)
    ensures |r| == if |points| < WindowSize then |points| else WindowSize
    ensures forall i :: 0 <= i < |r| ==> r[i] == points[|points| - |r| + i]
  {
    if |points| <= WindowSize then points else points[|points| - WindowSize..]
  }

  function Apys(recent: seq<Point>): (r: seq<real>)
    ensures |r| == |recent|
    ensures forall i :: 0 <= i < |recent| ==>
      r[i] == if recent[i].apy.Some? then recent[i].apy.value else 0.0
  {
    seq(|recent|, i requires 0 <= i < |recent| => recent[i].apy.GetOr(0.0))
  }

  function Tvls(recent: seq<Point>): (r: seq<real>)
    ensures |r| == |recent|
    ensures forall i :: 0 <= i < |recent| ==>
      r[i] == if recent[i].tvlUsd.Some? then recent[i].tvlUsd.value else 0.0
  {
    seq(|recent|, i requires 0 <= i < |recent| => recent[i].tvlUsd.GetOr(0.0))
  }

  function Id(x: real): real {
    x
  }

  /**
   * `x` squared. Written with `Id` so that the solver sees a product of two
   * terms rather than a square, which it handles poorly.
   */
  function Sq(x: real): real {
    x * Id(x)
  }

  /** The sum of squared deviations from `avg`. */
  function SquaredDeviations(s: seq<real>, avg: real): (r: real)
    ensures r >= 0.0
    decreases |s|
  {
    if s == [] then 0.0
    else
      SqNonNegative(s[0] - avg);
      Sq(s[0] - avg) + SquaredDeviations(s[1..], avg)
  }

  /** A square is never negative. */
  lemma SqNonNegative(x: real)
    ensures Sq(x) >= 0.0
  {
    if x >= 0.0 {
      MulNonNegative(x, x);
    } else {
      MulNonNegative(-x, -x);
      assert Sq(x) == (-x) * (-x);
    }
  }

  /** The population variance of `s`: never negative, and 0 for a flat series. */
  function Variance(s: seq<real>): (r: real)
    requires |s| > 0
    ensures r >= 0.0
    ensures (forall i :: 0 <= i < |s| ==> s[i] == s[0]) ==> r == 0.0
  {
    var n := |s| as real;
    var d := SquaredDeviations(s, Mean(s));
    FlatDeviationsVanish(s);
    QuotientNonNegative(d, n);
    d / n
  }

  lemma FlatDeviationsVanish(s: seq<real>)
    requires |s| > 0
    ensures (forall i :: 0 <= i < |s| ==> s[i] == s[0]) ==> SquaredDeviations(s, Mean(s)) == 0.0
  {
    if forall i :: 0 <= i < |s| ==> s[i] == s[0] {
      MeanOfConstant(s);
      SquaredDeviationsOfConstant(s, s[0]);
    }
  }

  lemma QuotientNonNegative(d: real, n: real)
    requires d >= 0.0 && n > 0.0
    ensures d / n >= 0.0
  {
  }

  datatype Stability = Stable | Moderate | Volatile | NotAvailable

  /**
   * The stability tier. The code compares `sqrt(variance) / avg` with 0.1
   * and 0.3; for a positive average that is the comparison of the variance
   * with the squared cut-off times the squared average (see `CvTierAgrees`).
   */
  function StabilityOf(apys: seq<real>): (r: Stability)
    ensures r == NotAvailable <==> |apys| < 2 || Mean(apys) <= 0.0
  {
    if |apys| > 1 && Mean(apys) > 0.0 then
      var avg, v := Mean(apys), Variance(apys);
      if v < StableCvSquared * Sq(avg) then Stable
      else if v < ModerateCvSquared * Sq(avg) then Moderate
      else Volatile
    else NotAvailable
  }

  lemma SqPositive(x: real)
    requires x > 0.0
    ensures Sq(x) > 0.0
  {
    MulPositive(x, x);
  }

  lemma SquareLess(x: real, y: real)
    requires 0.0 <= x < y
    ensures Sq(x) < Sq(y)
  {
    var d := y - x;
    MulNonNegative(x, d);
    MulPositive(d, y);
    assert Sq(y) - Sq(x) == x * d + d * y;
  }

  lemma SquareLessIff(x: real, y: real)
    requires x >= 0.0 && y >= 0.0
    ensures x < y <==> Sq(x) < Sq(y)
  {
    if x < y {
      SquareLess(x, y);
    } else if y < x {
      SquareLess(y, x);
    }
  }

  /** For a positive average, `sd / avg < k` exactly when `sd * sd < k * k * avg * avg`. */
  lemma CvBelowIff(sd: real, avg: real, k: real)
    requires sd >= 0.0 && avg > 0.0 && k > 0.0
    ensures sd / avg < k <==> Sq(sd) < Sq(k) * Sq(avg)
  {
    var cv := sd / avg;
    assert cv * avg == sd;
    assert cv < k <==> cv * avg < k * avg by {
      if cv < k { MulPositive(k - cv, avg); }
      else { MulNonNegative(cv - k, avg); }
    }
    MulPositive(k, avg);
    SquareLessIff(sd, k * avg);
    assert Sq(k * avg) == Sq(k) * Sq(avg);
  }

  /**
   * The tier computed from the variance is the tier the code computes
   * from the coefficient of variation `sd / avg`, for `sd` the square root
   * of the variance.
   */
  lemma CvTierAgrees(apys: seq<real>, sd: real)
    requires |apys| >= 2 && Mean(apys) > 0.0
    requires sd >= 0.0 && Sq(sd) == Variance(apys)
    ensures var cv := sd / Mean(apys);
      StabilityOf(apys) == if cv < StableCv then Stable else if cv < ModerateCv then Moderate else Volatile
  {
    assert Sq(StableCv) == StableCvSquared && Sq(ModerateCv) == ModerateCvSquared;
    CvBelowIff(sd, Mean(apys), StableCv);
    CvBelowIff(sd, Mean(apys), ModerateCv);
  }

  lemma {:induction false} SquaredDeviationsOfConstant(s: seq<real>, c: real)
    requires forall i :: 0 <= i < |s| ==> s[i] == c
    ensures SquaredDeviations(s, c) == 0.0
    decreases |s|
  {
    if s != [] {
      assert forall i :: 0 <= i < |s| - 1 ==> s[1..][i] == s[i + 1];
      SquaredDeviationsOfConstant(s[1..], c);
    }
  }

  /** A flat series of at least two positive points has variance 0 and is STABLE. */
  lemma FlatSeriesIsStable(apys: seq<real>, c: real)
    requires |apys| >= 2 && c > 0.0
    requires forall i :: 0 <= i < |apys| ==> apys[i] == c
    ensures Variance(apys) == 0.0
    ensures StabilityOf(apys) == Stable
  {
    MeanOfConstant(apys);
    var avg := Mean(apys);
    SqPositive(avg);
    MulPositive(StableCvSquared, Sq(avg));
  }

  datatype Trend = TrendNotAvailable | Up(change: real) | Down(change: real) | Flat(change: real)

  /** Percent change from the first TVL to the last; a first TVL of 0 divides by 1 instead. */
  function TvlChange(tvls: seq<real>): (r: real)
    requires |tvls| >= 2
    ensures tvls[0] != 0.0 ==> r * tvls[0] == (tvls[|tvls| - 1] - tvls[0]) * 100.0
    ensures tvls[0] == 0.0 ==> r == tvls[|tvls| - 1] * 100.0
  {
    var start := if tvls[0] != 0.0 then tvls[0] else 1.0;
    var q := (tvls[|tvls| - 1] - tvls[0]) / start;
    assert q * start == tvls[|tvls| - 1] - tvls[0];
    q * 100.0
  }

  function TvlTrend(tvls: seq<real>): (t: Trend)
    ensures t == TrendNotAvailable <==> |tvls| < 2
    ensures |tvls| >= 2 ==> !t.TrendNotAvailable? && t.change == TvlChange(tvls)
    ensures t.Up? ==> t.change > TrendPct
    ensures t.Down? ==> t.change < -TrendPct
    ensures t.Flat? ==> -TrendPct <= t.change <= TrendPct
  {
    if |tvls| >= 2 then
      var change := TvlChange(tvls);
      if change > TrendPct then Up(change)
      else if change < -TrendPct then Down(change)
      else Flat(change)
    else TrendNotAvailable
  }

  /** With a positive first TVL, UP means the last exceeds the first by more than 5%, DOWN that it falls below by more than 5%. */
  lemma TrendAgainstStart(tvls: seq<real>)
    requires |tvls| >= 2 && tvls[0] > 0.0
    ensures TvlTrend(tvls).Up? <==> tvls[|tvls| - 1] > 1.05 * tvls[0]
    ensures TvlTrend(tvls).Down? <==> tvls[|tvls| - 1] < 0.95 * tvls[0]
  {
    var first, last := tvls[0], tvls[|tvls| - 1];
    var q := (last - first) / first;
    assert q * first == last - first;
    assert TvlChange(tvls) == q * 100.0;
    assert q > 0.05 <==> last > 1.05 * first by {
      if q > 0.05 { MulPositive(q - 0.05, first); }
      else { MulNonNegative(0.05 - q, first); }
    }
    assert q < -0.05 <==> last < 0.95 * first by {
      if q < -0.05 { MulPositive(-0.05 - q, first); }
      else { MulNonNegative(q + 0.05, first); }
    }
  }

  /** With a first TVL of 0 the change is the last TVL times 100, so any last TVL above 0.05 is UP. */
  lemma TrendFromZeroStart(tvls: seq<real>)
    requires |tvls| >= 2 && tvls[0] == 0.0
    ensures TvlChange(tvls) == tvls[|tvls| - 1] * 100.0
    ensures TvlTrend(tvls).Up? <==> tvls[|tvls| - 1] > 0.05
  {
  }

  datatype Summary = Summary(
    days: nat,
    currentApy: real,
    avgApy: real,
    minApy: real,
    maxApy: real,
    variance: real,
    stability: Stability,
    tvlCurrent: real,
    tvlTrend: Trend,
    sparkline: string)

  datatype Report = NoHistory | Report(summary: Summary)

  /** The stability block: variance and tier, or 0 and N/A when the tier is undefined. */
  method ClassifyStability(apys: seq<real>) returns (variance: real, stability: Stability)
    requires |apys| > 0
    ensures stability == StabilityOf(apys)
    ensures variance == if stability == NotAvailable then 0.0 else Variance(apys)
  {
    var avg := Mean(apys);
    if avg > 0.0 && |apys| > 1 {
      variance := Variance(apys);
      if variance < StableCvSquared * Sq(avg) {
        stability := Stable;
      } else if variance < ModerateCvSquared * Sq(avg) {
        stability := Moderate;
      } else {
        stability := Volatile;
      }
    } else {
      variance := 0.0;
      stability := NotAvailable;
    }
  }

  /** The TVL-trend block. */
  method ClassifyTrend(tvls: seq<real>) returns (trend: Trend)
    ensures trend == TvlTrend(tvls)
  {
    if |tvls| >= 2 {
      var change := TvlChange(tvls);
      if change > TrendPct {
        trend := Up(change);
      } else if change < -TrendPct {
        trend := Down(change);
      } else {
        trend := Flat(change);
      }
    } else {
      trend := TrendNotAvailable;
    }
  }

  /**
   * `cmd_history` past the fetch: an empty series is an error; otherwise
   * the statistics of the most recent window.
   */
  method Summarize(points: seq<Point>) returns (r: Report)
    ensures r.NoHistory? <==> points == []
    ensures r.Report? ==>
      var s, apys, tvls := r.summary, Apys(Recent(points)), Tvls(Recent(points));
      && s.days == |apys| == (if |points| < WindowSize then |points| else WindowSize)
      && s.currentApy == apys[|apys| - 1] && s.tvlCurrent == tvls[|tvls| - 1]
      && s.avgApy == Mean(apys) && s.minApy == MinOf(apys) && s.maxApy == MaxOf(apys)
      && s.minApy <= s.avgApy <= s.maxApy
      && s.stability == StabilityOf(apys)
      && s.variance == (if s.stability == NotAvailable then 0.0 else Variance(apys))
      && s.tvlTrend == TvlTrend(tvls)
      && s.sparkline == Sparkline.Render(apys)
  {
    if points == [] {
      return NoHistory;
    }
    var recent := Recent(points);
    var apys, tvls := Apys(recent), Tvls(recent);
    var avg, lo, hi := Mean(apys), MinOf(apys), MaxOf(apys);
    var variance, stability := ClassifyStability(apys);
    var trend := ClassifyTrend(tvls);
    r := Report(Summary(|recent|, apys[|apys| - 1], avg, lo, hi, variance, stability,
                        tvls[|tvls| - 1], trend, Sparkline.Render(apys)));
  }
}
