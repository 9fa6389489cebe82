/**
 * Rating arithmetic shared by the preseason and the in-season player
 * ratings: weighted per-hour metrics and their pooled league means,
 * teammate and opponent exposure, the above-expectation / above-average
 * decomposition, the ice-time adjustment, the combined goal impact, the
 * goalie save value and the value of drawing or taking a penalty.
 *
 * Missing values (NaN after a division by zero or a left merge) are `None`;
 * the fitted regressions and the logarithm are parameters.
 */
module Ratings {
  import opened Wrappers
  import opened Seqs

  /** A skater's position group; goalies have their own formulas. */
  datatype Skater = Forward | Defence

  /** The strength context a metric is measured in. */
  datatype Context = EvenStrength | PowerPlay | PenaltyKill

  /** Offensive (goals for) or defensive (goals against) side of a 5v5 metric. */
  datatype Side = Offence | Defensive

  // ---------------------------------------------------------------------
  // Weighted per-hour metrics
  // ---------------------------------------------------------------------

  /** One component of a metric: its weight and the factor turning its count into goals. */
  datatype Term = Term(weight: real, scale: real)

  /** Total weight of a metric's components (the denominator's weight sum). */
  function TotalWeight(ts: seq<Term>): real
    decreases ts
  {
    if ts == [] then 0.0 else ts[0].weight + TotalWeight(ts[1..])
  }

  /** Weighted goal-equivalent count: the numerator of a metric before the 3600 factor. */
  function WeightedCount(ts: seq<Term>, counts: seq<real>): real
    requires |counts| == |ts|
    decreases ts
  {
    if ts == [] then 0.0
    else ts[0].weight * ts[0].scale * counts[0] + WeightedCount(ts[1..], counts[1..])
  }

  /**
   * The terms of metric_O, metric_D, metric_PP and metric_PK for a position:
   * goals, a scaled shot count and an expected-goals count. Every weight
   * sum is positive, so a metric is defined exactly when its ice time is
   * not zero.
   */
  function MetricTerms(pos: Skater, c: Context, side: Side): (ts: seq<Term>)
    ensures |ts| == 3 && TotalWeight(ts) > 0.0
  {
    match (pos, c, side)
    case (Forward, EvenStrength, Offence) => [Term(0.163, 1.0), Term(0.185, 0.091286), Term(0.262, 1.0)]
    case (Defence, EvenStrength, Offence) => [Term(0.064, 1.0), Term(0.132, 0.049399), Term(0.160, 1.0)]
    case (Forward, EvenStrength, Defensive) => [Term(0.031, 1.0), Term(0.140, 0.065956), Term(0.175, 1.0)]
    case (Defence, EvenStrength, Defensive) => [Term(0.041, 1.0), Term(0.172, 0.065956), Term(0.216, 1.0)]
    case (Forward, PowerPlay, _) => [Term(0.154, 1.0), Term(0.268, 0.065956), Term(0.293, 1.0)]
    case (Defence, PowerPlay, _) => [Term(0.104, 1.0), Term(0.249, 0.065956), Term(0.215, 1.0)]
    case (Forward, PenaltyKill, _) => [Term(0.019, 1.0), Term(0.155, 0.049399), Term(0.097, 1.0)]
    case (Defence, PenaltyKill, _) => [Term(0.017, 1.0), Term(0.166, 0.049399), Term(0.065, 1.0)]
  }

  /**
   * The terms of a skater's individual contribution: goals, primary
   * assists, secondary assists, shot attempts and expected goals.
   */
  function IndividualTerms(pos: Skater, c: Context): (ts: seq<Term>)
    requires c != PenaltyKill
    ensures |ts| == 5 && TotalWeight(ts) > 0.0
  {
    match (pos, c)
    case (Forward, EvenStrength) => [Term(0.142, 1.0), Term(0.114, 1.0), Term(0.036, 1.0), Term(0.559, 0.049399), Term(0.374, 1.0)]
    case (Defence, EvenStrength) => [Term(0.070, 1.0), Term(0.050, 1.0), Term(0.021, 1.0), Term(0.502, 0.049399), Term(0.386, 1.0)]
    case (Forward, PowerPlay) => [Term(0.072, 1.0), Term(0.160, 1.0), Term(0.091, 1.0), Term(0.549, 0.049399), Term(0.315, 1.0)]
    case (Defence, PowerPlay) => [Term(0.021, 1.0), Term(0.091, 1.0), Term(0.033, 1.0), Term(0.354, 0.049399), Term(0.289, 1.0)]
  }

  /**
   * A metric per 3600 seconds of ice time: 3600 times the weighted count
   * over ice time times the weight sum; missing when that denominator is 0.
   */
  function Rate(ts: seq<Term>, counts: seq<real>, toi: real): (r: Option<real>)
    requires |counts| == |ts|
    ensures r.None? <==> toi * TotalWeight(ts) == 0.0
  {
    if toi * TotalWeight(ts) == 0.0 then None
    else Some(3600.0 * WeightedCount(ts, counts) / (toi * TotalWeight(ts)))
  }

  lemma {:induction false} RateTimesDenominator(ts: seq<Term>, counts: seq<real>, toi: real, w: real)
    requires |counts| == |ts| && w == TotalWeight(ts) && toi * w != 0.0
    ensures Rate(ts, counts, toi).value * (toi * w) == 3600.0 * WeightedCount(ts, counts)
  {
  }

  /**
   * The metric is a weighted average of per-hour component rates: when
   * every component converts to the same `q` goals per hour of the given
   * ice time, the metric is `q`.
   */
  lemma {:induction false} RateOfUniformComponents(ts: seq<Term>, counts: seq<real>, toi: real, q: real)
    requires |counts| == |ts| && toi != 0.0 && TotalWeight(ts) != 0.0
    requires forall k :: 0 <= k < |ts| ==> ts[k].scale * counts[k] * 3600.0 == q * toi
    ensures Rate(ts, counts, toi) == Some(q)
  {
    UniformWeightedCount(ts, counts, toi, q);
    var w := TotalWeight(ts);
    var tw := toi * w;
    assert tw != 0.0;
    var r := Rate(ts, counts, toi).value;
    RateTimesDenominator(ts, counts, toi, w);
    assert r * tw == q * tw;
    CancelNonzero(r, q, tw);
  }

  lemma {:induction false} UniformWeightedCount(ts: seq<Term>, counts: seq<real>, toi: real, q: real)
    requires |counts| == |ts|
    requires forall k :: 0 <= k < |ts| ==> ts[k].scale * counts[k] * 3600.0 == q * toi
    ensures 3600.0 * WeightedCount(ts, counts) == q * (toi * TotalWeight(ts))
    decreases ts
  {
    if ts != [] {
      UniformWeightedCount(ts[1..], counts[1..], toi, q);
      var w := ts[0].weight;
      var rest := TotalWeight(ts[1..]);
      assert ts[0].scale * counts[0] * 3600.0 == q * toi;
      assert 3600.0 * (w * ts[0].scale * counts[0]) == w * (q * toi);
      assert w * (q * toi) + q * (toi * rest) == q * (toi * (w + rest));
    }
  }

  // ---------------------------------------------------------------------
  // Pooled league means and TOI-weighted means
  // ---------------------------------------------------------------------

  /** Element-wise sum of two count vectors. */
  function AddColumns(a: seq<real>, b: seq<real>): (r: seq<real>)
    requires |a| == |b|
    ensures |r| == |a| && forall k :: 0 <= k < |a| ==> r[k] == a[k] + b[k]
  {
    seq(|a|, k requires 0 <= k < |a| => a[k] + b[k])
  }

  predicate Shaped(rows: seq<seq<real>>, n: nat)
  {
    forall i :: 0 <= i < |rows| ==> |rows[i]| == n
  }

  /** Column sums of the players' counts (pandas `.sum()` per column). */
  function ColumnSums(rows: seq<seq<real>>, n: nat): (s: seq<real>)
    requires Shaped(rows, n)
    ensures |s| == n
    decreases rows
  {
    if rows == [] then seq(n, _ => 0.0)
    else AddColumns(rows[0], ColumnSums(rows[1..], n))
  }

  /**
   * The pooled league mean of a metric: the metric formula applied to the
   * column sums of the counts and of the ice time.
   */
  function PooledRate(ts: seq<Term>, rows: seq<seq<real>>, tois: seq<real>): Option<real>
    requires Shaped(rows, |ts|) && |tois| == |rows|
  {
    Rate(ts, ColumnSums(rows, |ts|), Sum(tois))
  }

  /** Sum of products of a column and a weight column. */
  function Dot(xs: seq<real>, ws: seq<real>): real
    requires |xs| == |ws|
    decreases xs
  {
    if xs == [] then 0.0 else xs[0] * ws[0] + Dot(xs[1..], ws[1..])
  }

  /** Weighted mean `sum(x * w) / sum(w)`; missing when the weights sum to 0. */
  function WeightedMean(xs: seq<real>, ws: seq<real>): (m: Option<real>)
    requires |xs| == |ws|
    ensures m.None? <==> Sum(ws) == 0.0
  {
    if Sum(ws) == 0.0 then None else Some(Dot(xs, ws) / Sum(ws))
  }

  lemma {:induction false} MeanTimesTotal(xs: seq<real>, ws: seq<real>, s: real, d: real)
    requires |xs| == |ws| && s == Sum(ws) && d == Dot(xs, ws) && s != 0.0
    ensures WeightedMean(xs, ws).value * s == d
  {
  }

  /** Each player's metric, for players with positive ice time. */
  function PlayerRates(ts: seq<Term>, rows: seq<seq<real>>, tois: seq<real>): (r: seq<real>)
    requires Shaped(rows, |ts|) && |tois| == |rows| && TotalWeight(ts) > 0.0
    requires forall i :: 0 <= i < |tois| ==> tois[i] > 0.0
    ensures |r| == |rows|
    decreases rows
  {
    if rows == [] then []
    else
      PositiveProduct(tois[0], TotalWeight(ts));
      [Rate(ts, rows[0], tois[0]).value] + PlayerRates(ts, rows[1..], tois[1..])
  }

  /** Entry `i` of the player rates is player `i`'s own metric. */
  lemma {:induction false} PlayerRatesAreRates(ts: seq<Term>, rows: seq<seq<real>>, tois: seq<real>)
    requires Shaped(rows, |ts|) && |tois| == |rows| && TotalWeight(ts) > 0.0
    requires forall i :: 0 <= i < |tois| ==> tois[i] > 0.0
    ensures forall i :: 0 <= i < |rows| ==> Some(PlayerRates(ts, rows, tois)[i]) == Rate(ts, rows[i], tois[i])
    decreases rows
  {
    if rows != [] {
      PlayerRatesAreRates(ts, rows[1..], tois[1..]);
      PositiveProduct(tois[0], TotalWeight(ts));
      var r := PlayerRates(ts, rows, tois);
      forall i | 0 <= i < |rows|
        ensures Some(r[i]) == Rate(ts, rows[i], tois[i])
      {
        if i > 0 {
          assert r[i] == PlayerRates(ts, rows[1..], tois[1..])[i - 1];
        }
      }
    }
  }

  /**
   * The pooled league mean equals the TOI-weighted average of the players'
   * own metrics, for players with positive ice time in the context.
   */
  lemma {:induction false} PooledIsToiWeightedMean(ts: seq<Term>, rows: seq<seq<real>>, tois: seq<real>)
    requires Shaped(rows, |ts|) && |tois| == |rows| && TotalWeight(ts) > 0.0
    requires forall i :: 0 <= i < |tois| ==> tois[i] > 0.0
    ensures PooledRate(ts, rows, tois) == WeightedMean(PlayerRates(ts, rows, tois), tois)
  {
    ColumnSumsCount(ts, rows);
    RatesDot(ts, rows, tois);
    RateIsMean(ts, ColumnSums(rows, |ts|), PlayerRates(ts, rows, tois), tois, SumOfCounts(ts, rows),
      Sum(tois), TotalWeight(ts), Dot(PlayerRates(ts, rows, tois), tois));
  }

  lemma {:induction false} RateIsMean(ts: seq<Term>, counts: seq<real>, rs: seq<real>, tois: seq<real>, c: real, t: real, w: real, d: real)
    requires |counts| == |ts| && |rs| == |tois| && w == TotalWeight(ts) && w > 0.0
    requires t == Sum(tois) && d == Dot(rs, tois)
    requires d * w == 3600.0 * c && c == WeightedCount(ts, counts)
    ensures Rate(ts, counts, t) == WeightedMean(rs, tois)
  {
    if t != 0.0 {
      NonzeroProduct(t, w);
      RateTimesDenominator(ts, counts, t, w);
      MeanTimesTotal(rs, tois, t, d);
      SameQuotient(Rate(ts, counts, t).value, WeightedMean(rs, tois).value, t, w, d, c);
    } else {
      ZeroTimes(t, w);
    }
  }

  lemma SameQuotient(a: real, b: real, t: real, w: real, d: real, c: real)
    requires t != 0.0 && w != 0.0
    requires a * (t * w) == 3600.0 * c && b * t == d && d * w == 3600.0 * c
    ensures a == b
  {
    assert b * (t * w) == d * w;
    CancelNonzero(a, b, t * w);
  }

  /** Sum over players of their weighted counts. */
  function SumOfCounts(ts: seq<Term>, rows: seq<seq<real>>): real
    requires Shaped(rows, |ts|)
    decreases rows
  {
    if rows == [] then 0.0 else WeightedCount(ts, rows[0]) + SumOfCounts(ts, rows[1..])
  }

  lemma {:induction false} WeightedCountAdditive(ts: seq<Term>, a: seq<real>, b: seq<real>)
    requires |a| == |ts| && |b| == |ts|
    ensures WeightedCount(ts, AddColumns(a, b)) == WeightedCount(ts, a) + WeightedCount(ts, b)
    decreases ts
  {
    if ts != [] {
      assert AddColumns(a, b)[1..] == AddColumns(a[1..], b[1..]);
      WeightedCountAdditive(ts[1..], a[1..], b[1..]);
    }
  }

  lemma {:induction false} WeightedCountOfZeros(ts: seq<Term>, n: nat)
    requires n == |ts|
    ensures WeightedCount(ts, seq(n, _ => 0.0)) == 0.0
    decreases ts
  {
    if ts != [] {
      assert seq(n, _ => 0.0)[1..] == seq(n - 1, _ => 0.0);
      WeightedCountOfZeros(ts[1..], n - 1);
    }
  }

  lemma {:induction false} ColumnSumsCount(ts: seq<Term>, rows: seq<seq<real>>)
    requires Shaped(rows, |ts|)
    ensures WeightedCount(ts, ColumnSums(rows, |ts|)) == SumOfCounts(ts, rows)
    decreases rows
  {
    if rows == [] {
      WeightedCountOfZeros(ts, |ts|);
    } else {
      ColumnSumsCount(ts, rows[1..]);
      WeightedCountAdditive(ts, rows[0], ColumnSums(rows[1..], |ts|));
    }
  }

  lemma {:induction false} RatesDot(ts: seq<Term>, rows: seq<seq<real>>, tois: seq<real>)
    requires Shaped(rows, |ts|) && |tois| == |rows| && TotalWeight(ts) > 0.0
    requires forall i :: 0 <= i < |tois| ==> tois[i] > 0.0
    ensures Dot(PlayerRates(ts, rows, tois), tois) * TotalWeight(ts) == 3600.0 * SumOfCounts(ts, rows)
  {
    PlayerRatesAreRates(ts, rows, tois);
    RatesScaled(ts, rows, tois, PlayerRates(ts, rows, tois));
  }

  /** RatesDot for any column holding each player's metric. */
  lemma {:induction false} RatesScaled(ts: seq<Term>, rows: seq<seq<real>>, tois: seq<real>, r: seq<real>)
    requires Shaped(rows, |ts|) && |tois| == |rows| == |r| && TotalWeight(ts) > 0.0
    requires forall i :: 0 <= i < |tois| ==> tois[i] > 0.0
    requires forall i :: 0 <= i < |rows| ==> Some(r[i]) == Rate(ts, rows[i], tois[i])
    ensures Dot(r, tois) * TotalWeight(ts) == 3600.0 * SumOfCounts(ts, rows)
  {
    forall i | 0 <= i < |rows|
      ensures Scaled(r[i], tois[i], TotalWeight(ts), WeightedCount(ts, rows[i]))
    {
      RateScaled(ts, rows[i], tois[i], r[i]);
    }
    DotOfScaled(r, tois, ts, rows, TotalWeight(ts));
  }

  lemma {:induction false} RateScaled(ts: seq<Term>, counts: seq<real>, toi: real, x: real)
    requires |counts| == |ts| && toi > 0.0 && TotalWeight(ts) > 0.0
    requires Rate(ts, counts, toi) == Some(x)
    ensures Scaled(x, toi, TotalWeight(ts), WeightedCount(ts, counts))
  {
    PositiveProduct(toi, TotalWeight(ts));
    RateTimesDenominator(ts, counts, toi, TotalWeight(ts));
  }

  /** A metric x over ice time t and weight sum w stands for the weighted count c. */
  predicate Scaled(x: real, t: real, w: real, c: real)
  {
    x * (t * w) == 3600.0 * c
  }

  /** When each x[i] * (t[i] * w) is 3600 times row i's weighted count, the dot product times w is 3600 times their sum. */
  lemma {:induction false} DotOfScaled(x: seq<real>, t: seq<real>, ts: seq<Term>, rows: seq<seq<real>>, w: real)
    requires Shaped(rows, |ts|) && |x| == |t| == |rows|
    requires forall i :: 0 <= i < |x| ==> Scaled(x[i], t[i], w, WeightedCount(ts, rows[i]))
    ensures Dot(x, t) * w == 3600.0 * SumOfCounts(ts, rows)
    decreases x
  {
    if x != [] {
      DotOfScaled(x[1..], t[1..], ts, rows[1..], w);
      DotStep(x[0], t[0], Dot(x[1..], t[1..]), w, WeightedCount(ts, rows[0]), SumOfCounts(ts, rows[1..]),
        Dot(x, t), SumOfCounts(ts, rows));
    }
  }

  /** One step of DotOfScaled: the head's product joins the rest's. */
  lemma DotStep(x: real, t: real, d: real, w: real, c: real, cs: real, dot: real, total: real)
    requires Scaled(x, t, w, c) && d * w == 3600.0 * cs
    requires dot == x * t + d && total == c + cs
    ensures dot * w == 3600.0 * total
  {
    assert (x * t + d) * w == x * (t * w) + d * w;
  }

  /** Each value minus the weighted mean (the `_aboveAvg` columns). */
  function AboveAverage(xs: seq<real>, ws: seq<real>): (r: seq<real>)
    requires |xs| == |ws| && Sum(ws) != 0.0
    ensures |r| == |xs|
    ensures forall k :: 0 <= k < |xs| ==> r[k] + WeightedMean(xs, ws).value == xs[k]
  {
    var m := WeightedMean(xs, ws).value;
    seq(|xs|, k requires 0 <= k < |xs| => xs[k] - m)
  }

  /** Values measured above their own weighted mean have a zero weighted sum. */
  lemma {:induction false} AboveAverageZeroSum(xs: seq<real>, ws: seq<real>)
    requires |xs| == |ws| && Sum(ws) != 0.0
    ensures Dot(AboveAverage(xs, ws), ws) == 0.0
  {
    ShiftByMean(xs, ws, AboveAverage(xs, ws));
  }

  lemma {:induction false} ShiftByMean(xs: seq<real>, ws: seq<real>, ys: seq<real>)
    requires |xs| == |ws| == |ys| && Sum(ws) != 0.0
    requires forall k :: 0 <= k < |xs| ==> ys[k] + WeightedMean(xs, ws).value == xs[k]
    ensures Dot(ys, ws) == 0.0
  {
    var m := WeightedMean(xs, ws).value;
    DotShift(xs, ws, m, ys);
    MeanTimesTotal(xs, ws, Sum(ws), Dot(xs, ws));
  }

  lemma {:induction false} DotShift(xs: seq<real>, ws: seq<real>, m: real, ys: seq<real>)
    requires |xs| == |ws| == |ys|
    requires forall k :: 0 <= k < |xs| ==> ys[k] == xs[k] - m
    ensures Dot(ys, ws) == Dot(xs, ws) - m * Sum(ws)
    decreases xs
  {
    if xs != [] {
      DotShift(xs[1..], ws[1..], m, ys[1..]);
    }
  }

  // ---------------------------------------------------------------------
  // Exposure to teammates and opponents
  // ---------------------------------------------------------------------

  /**
   * Number of other skaters a player shares the ice with in a context:
   * 4 teammates and 5 opponents at 5v5, 4 and 4 on the power play, 3
   * teammates and 5 opponents on the penalty kill.
   */
  function Divisor(c: Context, teammates: bool): (n: real)
    ensures n > 0.0
  {
    match c
    case EvenStrength => if teammates then 4.0 else 5.0
    case PowerPlay => 4.0
    case PenaltyKill => if teammates then 3.0 else 5.0
  }

  /** The season metrics of the other player in a pair; PP and PK are missing without ice time there. */
  datatype OtherMetrics = OtherMetrics(offence: real, defence: real, pp: Option<real>, pk: Option<real>)

  /**
   * Which metric of the other player a pair contributes. A teammate
   * contributes the metric of the same kind; an opponent the opposing one
   * (offence exposure uses the opponent's defence metric, power-play
   * exposure the opponent's penalty-kill metric). Missing PK and opponent PP
   * metrics count as 0.
   */
  function ExposureMetric(c: Context, side: Side, sameTeam: bool, y: OtherMetrics): (m: Option<real>)
    ensures c == EvenStrength && sameTeam ==> m == Some(if side == Offence then y.offence else y.defence)
    ensures c == EvenStrength && !sameTeam ==> m == Some(if side == Offence then y.defence else y.offence)
    ensures c == PowerPlay && sameTeam ==> m == y.pp
    ensures c == PowerPlay && !sameTeam ==> m == Some(y.pk.OrElse(0.0))
    ensures c == PenaltyKill ==> m == Some((if sameTeam then y.pk else y.pp).OrElse(0.0))
  {
    match c
    case EvenStrength =>
      if sameTeam == (side == Offence) then Some(y.offence) else Some(y.defence)
    case PowerPlay =>
      if sameTeam then y.pp else Some(y.pk.OrElse(0.0))
    case PenaltyKill =>
      if sameTeam then Some(y.pk.OrElse(0.0)) else Some(y.pp.OrElse(0.0))
  }

  /** A pair row: whether the other player is a teammate, the shared seconds and their metrics. */
  datatype Pair = Pair(sameTeam: bool, overlap: real, other: OtherMetrics)

  /**
   * metricSum_team (teammates) or metricSum_comp (opponents): over the
   * pairs on that side, the other player's metric times the shared time
   * over the player's ice time times the divisor; missing terms are skipped
   * by the sum.
   */
  function ExposureSum(c: Context, side: Side, pairs: seq<Pair>, toi: real, teammates: bool): real
    requires toi > 0.0
  {
    SideSum(c, side, pairs, teammates, toi * Divisor(c, teammates))
  }

  /** The pairs on one side, each metric times shared time over `denom`. */
  function SideSum(c: Context, side: Side, pairs: seq<Pair>, teammates: bool, denom: real): real
    requires denom > 0.0
    decreases pairs
  {
    if pairs == [] then 0.0
    else PairExposure(c, side, pairs[0], teammates, denom) + SideSum(c, side, pairs[1..], teammates, denom)
  }

  /** One pair's term of the exposure sum; 0 for a pair on the other side or a missing metric. */
  function PairExposure(c: Context, side: Side, p: Pair, teammates: bool, denom: real): real
    requires denom > 0.0
  {
    var m := ExposureMetric(c, side, p.sameTeam, p.other);
    if p.sameTeam == teammates && m.Some? then m.value * p.overlap / denom else 0.0
  }

  /** Seconds shared with the pairs on one side. */
  function SharedTime(pairs: seq<Pair>, teammates: bool): real
    decreases pairs
  {
    if pairs == [] then 0.0
    else SideOverlap(pairs[0], teammates) + SharedTime(pairs[1..], teammates)
  }

  /** A pair's shared seconds when it is on the chosen side, else 0. */
  function SideOverlap(p: Pair, teammates: bool): real
  {
    if p.sameTeam == teammates then p.overlap else 0.0
  }

  /**
   * Exposure is a time-weighted average of the others' metrics: when every
   * pair on the side contributes the same metric `m`, the sum is `m` times
   * the shared time over ice time times the divisor, so a player who always
   * had a full complement of such players beside them gets exactly `m`.
   */
  /** Every pair on the chosen side contributes the metric `m`. */
  predicate UniformSide(c: Context, side: Side, pairs: seq<Pair>, teammates: bool, m: real)
  {
    forall i :: 0 <= i < |pairs| && pairs[i].sameTeam == teammates ==>
      ExposureMetric(c, side, pairs[i].sameTeam, pairs[i].other) == Some(m)
  }

  lemma {:induction false} ExposureOfUniformPairs(c: Context, side: Side, pairs: seq<Pair>, toi: real, teammates: bool, m: real)
    requires toi > 0.0 && UniformSide(c, side, pairs, teammates, m)
    ensures SharedTime(pairs, teammates) == toi * Divisor(c, teammates) ==> ExposureSum(c, side, pairs, toi, teammates) == m
  {
    PositiveProduct(toi, Divisor(c, teammates));
    FullShare(c, side, pairs, teammates, toi * Divisor(c, teammates), m,
      ExposureSum(c, side, pairs, toi, teammates), SharedTime(pairs, teammates));
  }

  lemma {:induction false} FullShare(c: Context, side: Side, pairs: seq<Pair>, teammates: bool, d: real, m: real, es: real, sh: real)
    requires d > 0.0 && UniformSide(c, side, pairs, teammates, m)
    requires es == SideSum(c, side, pairs, teammates, d) && sh == SharedTime(pairs, teammates)
    ensures sh == d ==> es == m
  {
    SideSumScaled(c, side, pairs, teammates, d, m, es, sh);
    ShareCancel(es, d, m, sh);
  }

  lemma ShareCancel(es: real, d: real, m: real, sh: real)
    requires d != 0.0 && es * d == m * sh
    ensures sh == d ==> es == m
  {
    if sh == d {
      CancelNonzero(es, m, d);
    }
  }

  lemma {:induction false} SideSumScaled(c: Context, side: Side, pairs: seq<Pair>, teammates: bool, d: real, m: real, es: real, sh: real)
    requires d > 0.0 && UniformSide(c, side, pairs, teammates, m)
    requires es == SideSum(c, side, pairs, teammates, d) && sh == SharedTime(pairs, teammates)
    ensures es * d == m * sh
    decreases pairs
  {
    if pairs == [] {
      ZeroTimes(0.0, d);
      ZeroTimes(0.0, m);
    } else {
      var tail := pairs[1..];
      assert UniformSide(c, side, tail, teammates, m) by {
        forall i | 0 <= i < |tail| && tail[i].sameTeam == teammates
          ensures ExposureMetric(c, side, tail[i].sameTeam, tail[i].other) == Some(m)
        {
          assert tail[i] == pairs[i + 1];
        }
      }
      var rest := SideSum(c, side, tail, teammates, d);
      var s := SharedTime(tail, teammates);
      SideSumScaled(c, side, tail, teammates, d, m, rest, s);
      var p := pairs[0];
      var e := PairExposure(c, side, p, teammates, d);
      var o := SideOverlap(p, teammates);
      PairExposureScaled(c, side, p, teammates, d, m, e, o);
      SumScaled(es, e, rest, d, m, sh, o, s);
    }
  }

  lemma {:induction false} PairExposureScaled(c: Context, side: Side, p: Pair, teammates: bool, d: real, m: real, e: real, o: real)
    requires d > 0.0
    requires p.sameTeam == teammates ==> ExposureMetric(c, side, p.sameTeam, p.other) == Some(m)
    requires e == PairExposure(c, side, p, teammates, d) && o == SideOverlap(p, teammates)
    ensures e * d == m * o
  {
    if p.sameTeam == teammates {
      assert m * p.overlap / d * d == m * p.overlap;
    } else {
      ZeroTimes(0.0, d);
      ZeroTimes(0.0, m);
    }
  }

  lemma SumScaled(es: real, e: real, rest: real, d: real, m: real, sh: real, o: real, s: real)
    requires es == e + rest && sh == o + s && e * d == m * o && rest * d == m * s
    ensures es * d == m * sh
  {
    Distribute2(e, rest, d);
    Distribute2(o, s, m);
  }

  lemma NonzeroProduct(a: real, b: real)
    requires a != 0.0 && b != 0.0
    ensures a * b != 0.0
  {
  }

  lemma PositiveProduct(a: real, b: real)
    requires a > 0.0 && b > 0.0
    ensures a * b > 0.0
  {
  }

  lemma DivideOut(a: real, x: real)
    requires a != 0.0
    ensures a * x / a == x
  {
  }

  lemma ZeroTimes(a: real, b: real)
    requires a == 0.0
    ensures a * b == 0.0 && b * a == 0.0
  {
  }

  lemma Distribute2(a: real, b: real, k: real)
    ensures (a + b) * k == a * k + b * k && k * (a + b) == k * a + k * b
  {
  }

  lemma ScaledLow(a: real, x: real, lo: real)
    requires a >= 0.0 && (a != 0.0 ==> lo <= x)
    ensures a * lo <= a * x
  {
  }

  lemma ScaledHigh(a: real, x: real, hi: real)
    requires a >= 0.0 && (a != 0.0 ==> x <= hi)
    ensures a * x <= a * hi
  {
  }

  /** lo is at most the mean num / total, stated without the division. */
  predicate BoundsMean(lo: real, num: real, total: real)
  {
    total * lo <= num
  }

  /** hi is at least the mean num / total, stated without the division. */
  predicate MeanBounded(num: real, total: real, hi: real)
  {
    num <= total * hi
  }

  lemma ConvexLow(a: real, b: real, c: real, x: real, y: real, z: real, lo: real)
    requires a >= 0.0 && b >= 0.0 && c >= 0.0
    requires (a != 0.0 ==> lo <= x) && (b != 0.0 ==> lo <= y) && (c != 0.0 ==> lo <= z)
    ensures BoundsMean(lo, a * x + b * y + c * z, a + b + c)
  {
    Distribute3(a, b, c, lo);
    ScaledLow(a, x, lo);
    ScaledLow(b, y, lo);
    ScaledLow(c, z, lo);
  }

  lemma ConvexHigh(a: real, b: real, c: real, x: real, y: real, z: real, hi: real)
    requires a >= 0.0 && b >= 0.0 && c >= 0.0
    requires (a != 0.0 ==> x <= hi) && (b != 0.0 ==> y <= hi) && (c != 0.0 ==> z <= hi)
    ensures MeanBounded(a * x + b * y + c * z, a + b + c, hi)
  {
    Distribute3(a, b, c, hi);
    ScaledHigh(a, x, hi);
    ScaledHigh(b, y, hi);
    ScaledHigh(c, z, hi);
  }

  lemma QuotientLow(num: real, total: real, lo: real)
    requires total > 0.0 && BoundsMean(lo, num, total)
    ensures lo <= num / total
  {
    assert num / total * total == num;
    if lo > num / total {
      assert false;
    }
  }

  lemma QuotientHigh(num: real, total: real, hi: real)
    requires total > 0.0 && MeanBounded(num, total, hi)
    ensures num / total <= hi
  {
    assert num / total * total == num;
    if hi < num / total {
      assert false;
    }
  }

  lemma Distribute3(a: real, b: real, c: real, k: real)
    ensures (a + b + c) * k == a * k + b * k + c * k
  {
  }

  lemma CancelNonzero(x: real, y: real, t: real)
    requires t != 0.0 && x * t == y * t
    ensures x == y
  {
  }

  lemma CancelFactor(x: real, y: real, d: real)
    requires d > 0.0 && x * d <= y * d
    ensures x <= y
  {
    if x > y {
      assert false;
    }
  }

  lemma DivideSum(a: real, b: real, d: real)
    requires d != 0.0
    ensures a / d + b / d == (a + b) / d
  {
  }

  // ---------------------------------------------------------------------
  // Regression residuals and the decomposition into GC60 / GP60
  // ---------------------------------------------------------------------

  /** The value a missing regression feature is predicted with. */
  const MissingFeature: real := 0.4

  /** The feature vector used for prediction: missing features become 0.4. */
  function FillFeatures(fs: seq<Option<real>>): (r: seq<real>)
    ensures |r| == |fs|
    ensures forall k :: 0 <= k < |fs| ==> r[k] == (if fs[k].Some? then fs[k].value else MissingFeature)
  {
    seq(|fs|, k requires 0 <= k < |fs| => fs[k].OrElse(MissingFeature))
  }

  predicate Complete(fs: seq<Option<real>>)
  {
    forall k :: 0 <= k < |fs| ==> fs[k].Some?
  }

  /** The rows the regression is fitted on: those with every feature present (`dropna`). */
  function FitRows(rows: seq<seq<Option<real>>>): (r: seq<nat>)
    ensures forall i: nat :: i in r <==> i < |rows| && Complete(rows[i])
  {
    CompleteFrom(rows, 0)
  }

  /** Indices from `k` on of the rows with every feature present, in order. */
  function CompleteFrom(rows: seq<seq<Option<real>>>, k: nat): (r: seq<nat>)
    requires k <= |rows|
    ensures forall i: nat :: i in r <==> k <= i < |rows| && Complete(rows[i])
    decreases |rows| - k
  {
    if k == |rows| then []
    else if Complete(rows[k]) then [k] + CompleteFrom(rows, k + 1)
    else CompleteFrom(rows, k + 1)
  }

  /**
   * Residual against the fitted prediction (`_aboveExp`); the prediction is
   * made on the filled features, and observed = prediction + residual.
   */
  function AboveExpectation(observed: real, features: seq<Option<real>>, predict: seq<real> -> real): (r: real)
    ensures r + predict(FillFeatures(features)) == observed
    ensures Complete(features) ==> r == observed - predict(seq(|features|, k requires 0 <= k < |features| => features[k].value))
  {
    assert Complete(features) ==> FillFeatures(features) == seq(|features|, k requires 0 <= k < |features| => features[k].value);
    observed - predict(FillFeatures(features))
  }

  /** Goal contribution per hour: the mean of the three above-baseline measures. */
  function Contribution(aboveExp: real, aboveAvg: real, indivAboveAvg: real): (g: real)
    ensures 3.0 * g == aboveExp + aboveAvg + indivAboveAvg
  {
    (aboveExp + aboveAvg + indivAboveAvg) / 3.0
  }

  /** Goal prevention per hour: minus the mean of the two above-baseline measures of goals against. */
  function Prevention(aboveExp: real, aboveAvg: real): (g: real)
    ensures -2.0 * g == aboveExp + aboveAvg
  {
    (aboveExp + aboveAvg) / -2.0
  }

  /**
   * A contribution lies between the smallest and largest of its parts, and
   * prevention is positive exactly when goals against are below baseline
   * on balance.
   */
  lemma ComponentBounds(a: real, b: real, c: real, lo: real, hi: real)
    requires lo <= a <= hi && lo <= b <= hi && lo <= c <= hi
    ensures lo <= Contribution(a, b, c) <= hi
    ensures Prevention(a, b) > 0.0 <==> a + b < 0.0
    ensures lo <= -Prevention(a, b) <= hi
  {
  }

  // ---------------------------------------------------------------------
  // Ice-time adjustment
  // ---------------------------------------------------------------------

  const SkaterSlope: real := 5.0
  const GoalieSlope: real := 10.0

  /**
   * nonneg_adjustment: 1 + slope * (ln toi / ln meanToi - 1), floored at 0;
   * missing when ln meanToi is 0.
   */
  function Adjustment(toi: real, meanToi: real, slope: real, ln: real -> real): (a: Option<real>)
    ensures a.None? <==> ln(meanToi) == 0.0
    ensures a.Some? ==> a.value >= 0.0
    ensures a.Some? ==> a.value >= 1.0 + slope * (ln(toi) / ln(meanToi) - 1.0)
  {
    if ln(meanToi) == 0.0 then None
    else
      var raw := 1.0 + slope * (ln(toi) / ln(meanToi) - 1.0);
      Some(if raw > 0.0 then raw else 0.0)
  }

  /**
   * A player at the mean ice time gets adjustment 1, and with a positive
   * log mean and a non-negative slope the adjustment does not decrease
   * with ice time.
   */
  lemma AdjustmentShape(t1: real, t2: real, meanToi: real, slope: real, ln: real -> real)
    requires ln(meanToi) > 0.0 && slope >= 0.0 && ln(t1) <= ln(t2)
    ensures Adjustment(meanToi, meanToi, slope, ln) == Some(1.0)
    ensures Adjustment(t1, meanToi, slope, ln).value <= Adjustment(t2, meanToi, slope, ln).value
  {
    var l := ln(meanToi);
    assert l / l == 1.0;
    assert ln(t1) / l <= ln(t2) / l by {
      assert ln(t1) / l * l <= ln(t2) / l * l;
    }
    assert slope * (ln(t1) / l - 1.0) <= slope * (ln(t2) / l - 1.0);
  }

  // ---------------------------------------------------------------------
  // Combined goal impact
  // ---------------------------------------------------------------------

  /** A special-teams rating joined from its own table: ice time and value per hour. */
  datatype ContextRating = ContextRating(toi: real, value: real)

  /**
   * GI60: the penalty impact plus the ice-time-weighted average of the 5v5
   * contribution plus prevention, the power-play contribution and the
   * penalty-kill prevention; a missing join or penalty value counts as 0.
   * Missing when the combined ice time is 0.
   */
  function GoalImpact(pens: Option<real>, toi5: real, gc5: real, gp5: real,
                      pp: Option<ContextRating>, pk: Option<ContextRating>): (g: Option<real>)
    ensures g.None? <==> toi5 + (if pp.Some? then pp.value.toi else 0.0) + (if pk.Some? then pk.value.toi else 0.0) == 0.0
  {
    var tp := if pp.Some? then pp.value.toi else 0.0;
    var vp := if pp.Some? then pp.value.value else 0.0;
    var tk := if pk.Some? then pk.value.toi else 0.0;
    var vk := if pk.Some? then pk.value.value else 0.0;
    if toi5 + tp + tk == 0.0 then None
    else Some(pens.OrElse(0.0) + Blend(toi5, gc5 + gp5, tp, vp, tk, vk))
  }

  /** Average of three values weighted by their ice times. */
  function Blend(t1: real, v1: real, t2: real, v2: real, t3: real, v3: real): real
    requires t1 + t2 + t3 != 0.0
  {
    (t1 * v1 + t2 * v2 + t3 * v3) / (t1 + t2 + t3)
  }

  /**
   * With non-negative times, the blend lies within any bounds that hold for
   * each value with positive time, and a single present value is returned
   * unchanged.
   */
  lemma BlendBounds(t1: real, v1: real, t2: real, v2: real, t3: real, v3: real, lo: real, hi: real)
    requires t1 >= 0.0 && t2 >= 0.0 && t3 >= 0.0 && t1 + t2 + t3 > 0.0
    requires (t1 != 0.0 ==> lo <= v1 <= hi) && (t2 != 0.0 ==> lo <= v2 <= hi) && (t3 != 0.0 ==> lo <= v3 <= hi)
    ensures lo <= Blend(t1, v1, t2, v2, t3, v3) <= hi
  {
    BlendLow(t1, v1, t2, v2, t3, v3, lo);
    BlendHigh(t1, v1, t2, v2, t3, v3, hi);
  }

  lemma BlendLow(t1: real, v1: real, t2: real, v2: real, t3: real, v3: real, lo: real)
    requires t1 >= 0.0 && t2 >= 0.0 && t3 >= 0.0 && t1 + t2 + t3 > 0.0
    requires (t1 != 0.0 ==> lo <= v1) && (t2 != 0.0 ==> lo <= v2) && (t3 != 0.0 ==> lo <= v3)
    ensures lo <= Blend(t1, v1, t2, v2, t3, v3)
  {
    var num := t1 * v1 + t2 * v2 + t3 * v3;
    var total := t1 + t2 + t3;
    ConvexLow(t1, t2, t3, v1, v2, v3, lo);
    QuotientLow(num, total, lo);
    assert Blend(t1, v1, t2, v2, t3, v3) == num / total;
  }

  lemma BlendHigh(t1: real, v1: real, t2: real, v2: real, t3: real, v3: real, hi: real)
    requires t1 >= 0.0 && t2 >= 0.0 && t3 >= 0.0 && t1 + t2 + t3 > 0.0
    requires (t1 != 0.0 ==> v1 <= hi) && (t2 != 0.0 ==> v2 <= hi) && (t3 != 0.0 ==> v3 <= hi)
    ensures Blend(t1, v1, t2, v2, t3, v3) <= hi
  {
    var num := t1 * v1 + t2 * v2 + t3 * v3;
    var total := t1 + t2 + t3;
    ConvexHigh(t1, t2, t3, v1, v2, v3, hi);
    QuotientHigh(num, total, hi);
    assert Blend(t1, v1, t2, v2, t3, v3) == num / total;
  }

  lemma BlendOfOne(t1: real, v1: real, v2: real, v3: real)
    requires t1 != 0.0
    ensures Blend(t1, v1, 0.0, v2, 0.0, v3) == v1
  {
    ZeroTimes(0.0, v2);
    ZeroTimes(0.0, v3);
    DivideOut(t1, v1);
  }

  /**
   * Apart from the penalty term, GI60 is a convex combination: it lies
   * within any bounds that hold for each context present, and a player
   * with no special-teams rows gets exactly their 5v5 impact.
   */
  lemma {:induction false} GoalImpactIsTimeWeighted(pens: Option<real>, toi5: real, gc5: real, gp5: real,
                                 pp: Option<ContextRating>, pk: Option<ContextRating>, lo: real, hi: real)
    requires toi5 > 0.0
    requires pp.Some? ==> pp.value.toi >= 0.0 && lo <= pp.value.value <= hi
    requires pk.Some? ==> pk.value.toi >= 0.0 && lo <= pk.value.value <= hi
    requires lo <= gc5 + gp5 <= hi
    ensures GoalImpact(pens, toi5, gc5, gp5, pp, pk).Some?
    ensures lo <= GoalImpact(pens, toi5, gc5, gp5, pp, pk).value - pens.OrElse(0.0) <= hi
    ensures pp.None? && pk.None? ==> GoalImpact(pens, toi5, gc5, gp5, pp, pk) == Some(pens.OrElse(0.0) + gc5 + gp5)
  {
    var tp := if pp.Some? then pp.value.toi else 0.0;
    var vp := if pp.Some? then pp.value.value else 0.0;
    var tk := if pk.Some? then pk.value.toi else 0.0;
    var vk := if pk.Some? then pk.value.value else 0.0;
    BlendBounds(toi5, gc5 + gp5, tp, vp, tk, vk, lo, hi);
    if pp.None? && pk.None? {
      BlendOfOne(toi5, gc5 + gp5, vp, vk);
    }
  }

  // ---------------------------------------------------------------------
  // Goalies
  // ---------------------------------------------------------------------

  /** Save percentage 1 - GA / SA; missing for a goalie who faced no shots. */
  function SavePct(ga: real, sa: real): (s: Option<real>)
    ensures s.None? <==> sa == 0.0
    ensures 0.0 <= ga <= sa && sa > 0.0 ==> 0.0 <= s.value <= 1.0
  {
    if sa == 0.0 then None
    else
      assert 0.0 <= ga <= sa && sa > 0.0 ==> ga / sa <= 1.0 by {
        if 0.0 <= ga <= sa && sa > 0.0 {
          assert ga / sa * sa == ga;
        }
      }
      Some(1.0 - ga / sa)
  }

  /** A goalie's season totals: goals against, shots against, ice time, and goals saved above expected. */
  datatype GoalieRow = GoalieRow(ga: real, sa: real, toi: real, gsax: real)

  /** The save percentages of the goalie rows. */
  function SavePcts(rows: seq<GoalieRow>): (r: seq<Option<real>>)
    ensures |r| == |rows| && forall i :: 0 <= i < |rows| ==> r[i] == SavePct(rows[i].ga, rows[i].sa)
  {
    seq(|rows|, i requires 0 <= i < |rows| => SavePct(rows[i].ga, rows[i].sa))
  }

  function Tois(rows: seq<GoalieRow>): (r: seq<real>)
    ensures |r| == |rows| && forall i :: 0 <= i < |rows| ==> r[i] == rows[i].toi
  {
    seq(|rows|, i requires 0 <= i < |rows| => rows[i].toi)
  }

  /** Sum of value times weight over the present values (pandas skips NaN in `sum`). */
  function PresentDot(xs: seq<Option<real>>, ws: seq<real>): real
    requires |xs| == |ws|
    decreases xs
  {
    if xs == [] then 0.0
    else (if xs[0].Some? then xs[0].value * ws[0] else 0.0) + PresentDot(xs[1..], ws[1..])
  }

  /** The league save percentage: TOI-weighted over goalies with shots, divided by everyone's ice time. */
  function LeagueSavePct(rows: seq<GoalieRow>): Option<real>
  {
    var t := Sum(Tois(rows));
    if t == 0.0 then None else Some(PresentDot(SavePcts(rows), Tois(rows)) / t)
  }

  /**
   * Goals saved above average, SvPctAboveAvg * SA: the goals an average
   * goalie would have allowed on the same shots minus the goals allowed.
   */
  function GoalsSavedAboveAverage(ga: real, sa: real, league: real): (g: Option<real>)
    ensures g.None? <==> sa == 0.0
    ensures g.Some? ==> g.value == sa * (1.0 - league) - ga
  {
    match SavePct(ga, sa)
    case None => None
    case Some(sv) =>
      assert sv * sa == sa - ga by {
        assert ga / sa * sa == ga;
      }
      Some((sv - league) * sa)
  }

  /**
   * When every goalie faced shots, save percentage above the league mean
   * has a zero TOI-weighted sum.
   */
  lemma {:induction false} SavePctAboveAverageZeroSum(rows: seq<GoalieRow>)
    requires forall i :: 0 <= i < |rows| ==> rows[i].sa != 0.0
    requires Sum(Tois(rows)) != 0.0
    ensures var svs := seq(|rows|, i requires 0 <= i < |rows| => SavePct(rows[i].ga, rows[i].sa).value);
      LeagueSavePct(rows) == WeightedMean(svs, Tois(rows)) &&
      Dot(AboveAverage(svs, Tois(rows)), Tois(rows)) == 0.0
  {
    var svs := seq(|rows|, i requires 0 <= i < |rows| => SavePct(rows[i].ga, rows[i].sa).value);
    PresentDotAllPresent(SavePcts(rows), svs, Tois(rows));
    AboveAverageZeroSum(svs, Tois(rows));
  }

  lemma {:induction false} PresentDotAllPresent(xs: seq<Option<real>>, vs: seq<real>, ws: seq<real>)
    requires |xs| == |vs| == |ws|
    requires forall i :: 0 <= i < |xs| ==> xs[i] == Some(vs[i])
    ensures PresentDot(xs, ws) == Dot(vs, ws)
    decreases xs
  {
    if xs != [] {
      PresentDotAllPresent(xs[1..], vs[1..], ws[1..]);
    }
  }

  /** Goalie GI60: a .020 / .018 weighted average of saves above average and above expected, per hour. */
  function GoalieImpact(gsaa: real, gsax: real, toi: real): (g: Option<real>)
    ensures g.None? <==> toi == 0.0
  {
    if toi == 0.0 then None
    else Some((0.020 * gsaa + 0.018 * gsax) * 3600.0 / (toi * (0.020 + 0.018)))
  }

  /**
   * Goalie GI60 is a per-hour rate of a weighted average of the two saved
   * goal measures: with positive ice time it lies between their per-hour
   * rates, and equals that rate when they agree.
   */
  lemma GoalieImpactIsAverage(gsaa: real, gsax: real, toi: real, lo: real, hi: real)
    requires toi > 0.0 && lo <= gsaa <= hi && lo <= gsax <= hi
    ensures 3600.0 * lo / toi <= GoalieImpact(gsaa, gsax, toi).value <= 3600.0 * hi / toi
    ensures gsaa == gsax ==> GoalieImpact(gsaa, gsax, toi).value == 3600.0 * gsaa / toi
  {
    var num := (0.020 * gsaa + 0.018 * gsax) * 3600.0;
    var den := toi * 0.038;
    assert 3600.0 * lo * 0.038 <= num <= 3600.0 * hi * 0.038;
    assert den > 0.0;
    assert num / den * den == num;
    assert (3600.0 * lo / toi) * den == 3600.0 * lo * 0.038;
    assert (3600.0 * hi / toi) * den == 3600.0 * hi * 0.038;
    CancelFactor(3600.0 * lo / toi, num / den, den);
    CancelFactor(num / den, 3600.0 * hi / toi, den);
    if gsaa == gsax {
      assert num == 3600.0 * gsaa * 0.038;
      assert (3600.0 * gsaa / toi) * den == num;
    }
  }

  // ---------------------------------------------------------------------
  // Penalties
  // ---------------------------------------------------------------------

  /**
   * Value in goals of one penalty: the league's power-play goal rate minus
   * its penalty-kill goal-against rate, per hour, times two minutes;
   * missing when either ice time is 0.
   */
  function PenaltyValue(ppGoals: real, ppToi: real, pkGoals: real, pkToi: real): (v: Option<real>)
    ensures v.None? <==> ppToi == 0.0 || pkToi == 0.0
  {
    if ppToi == 0.0 || pkToi == 0.0 then None
    else Some((3600.0 * ppGoals / ppToi - 3600.0 * pkGoals / pkToi) * (2.0 / 60.0))
  }

  /**
   * A penalty is worth the goals scored on a two-minute power play minus
   * those allowed on a two-minute kill, and nothing when the two rates are
   * equal.
   */
  lemma PenaltyValueIsTwoMinutes(ppGoals: real, ppToi: real, pkGoals: real, pkToi: real)
    requires ppToi != 0.0 && pkToi != 0.0
    ensures PenaltyValue(ppGoals, ppToi, pkGoals, pkToi).value == 120.0 * (ppGoals / ppToi) - 120.0 * (pkGoals / pkToi)
    ensures ppGoals / ppToi == pkGoals / pkToi ==> PenaltyValue(ppGoals, ppToi, pkGoals, pkToi) == Some(0.0)
  {
    assert 3600.0 * ppGoals / ppToi == 3600.0 * (ppGoals / ppToi);
    assert 3600.0 * pkGoals / pkToi == 3600.0 * (pkGoals / pkToi);
  }

  /** Weight of a drawn penalty by position. */
  function DrawnWeight(pos: Skater): real
  {
    match pos
    case Forward => 0.837
    case Defence => 0.733
  }

  /** Weight of a taken penalty by position. */
  function TakenWeight(pos: Skater): real
  {
    match pos
    case Forward => 1.163
    case Defence => 1.267
  }

  /**
   * GI60_Pens: penalty value times the weighted balance of penalties drawn
   * and taken, per hour; missing counts count as 0, and the rate is missing
   * without ice time.
   */
  function PenaltyImpact(penValue: real, drawn: Option<real>, taken: Option<real>, toi: real, pos: Skater): (g: Option<real>)
    ensures g.None? <==> toi == 0.0
  {
    if toi == 0.0 then None
    else Some(penValue * 3600.0 * (DrawnWeight(pos) * drawn.OrElse(0.0) - TakenWeight(pos) * taken.OrElse(0.0)) / toi)
  }

  /**
   * The two weights split 2 between them at both positions; with a
   * positive penalty value and ice time the impact strictly rises with
   * penalties drawn and falls with penalties taken, and it is 0 for a
   * player with neither.
   */
  lemma {:induction false} PenaltyImpactMonotone(penValue: real, d1: real, d2: real, t1: real, t2: real, toi: real, pos: Skater)
    requires penValue > 0.0 && toi > 0.0 && d1 <= d2 && t1 >= t2 && (d1 < d2 || t1 > t2)
    ensures DrawnWeight(pos) + TakenWeight(pos) == 2.0
    ensures PenaltyImpact(penValue, Some(d1), Some(t1), toi, pos).value < PenaltyImpact(penValue, Some(d2), Some(t2), toi, pos).value
    ensures PenaltyImpact(penValue, None, None, toi, pos) == Some(0.0)
  {
    var b1 := DrawnWeight(pos) * d1 - TakenWeight(pos) * t1;
    var b2 := DrawnWeight(pos) * d2 - TakenWeight(pos) * t2;
    assert b1 < b2;
    var k := penValue * 3600.0;
    assert k * b1 < k * b2;
    assert k * b1 / toi < k * b2 / toi by {
      assert (k * b1 / toi) * toi == k * b1;
      assert (k * b2 / toi) * toi == k * b2;
    }
  }
}
