/**
 * Back-testing the game model against closing money lines: American odds to
 * an implied win probability, the payout ratio of a winning bet, the Kelly
 * stake of every bet the model would place, and its net result.
 */
module Betting {
  import opened Wrappers
  import opened Seqs

  /** Implied win probability of American odds; odds of 0 keep the default 0. */
  function ImpliedPct(odds: int): (q: real)
    ensures odds != 0 ==> 0.0 < q < 1.0
    ensures odds == 0 ==> q == 0.0
  {
    if odds < 0 then
      var o := odds as real;
      assert o / (o - 100.0) == -o / (100.0 - o);
      ProperFraction(-o, 100.0 - o);
      o / (o - 100.0)
    else if odds > 0 then
      ProperFraction(100.0, 100.0 + odds as real);
      100.0 / (100.0 + odds as real)
    else 0.0
  }

  lemma ProperFraction(a: real, b: real)
    requires 0.0 < a < b
    ensures 0.0 < a / b < 1.0
  {
    var q := a / b;
    assert q * b == a;
    if q >= 1.0 {
      assert false;
    }
  }

  /** Amount won per unit staked on a winning bet; 0 for odds of 0. */
  function GainRatio(odds: int): (g: real)
    ensures odds != 0 ==> g > 0.0
  {
    if odds < 0 then -100.0 / odds as real
    else if odds > 0 then odds as real / 100.0
    else 0.0
  }

  /** The implied probability is the break-even probability of the payout: 1 / (1 + gain). */
  lemma ImpliedPctIsBreakEven(odds: int)
    requires odds != 0
    ensures ImpliedPct(odds) == 1.0 / (1.0 + GainRatio(odds))
  {
    var o := odds as real;
    if odds < 0 {
      assert 1.0 + GainRatio(odds) == (o - 100.0) / o;
    } else {
      assert 1.0 + GainRatio(odds) == (100.0 + o) / 100.0;
    }
  }

  /** Kelly stake for win probability `p`: p - (1 - p) / gain; `None` (not finite) when the gain is 0. */
  function NormBet(p: real, odds: int): (b: Option<real>)
    ensures b.None? <==> odds == 0
  {
    if GainRatio(odds) == 0.0 then None
    else Some(p - (1.0 - p) / GainRatio(odds))
  }

  /**
   * A bet is placed exactly when the model's probability beats the implied
   * one, and then its Kelly stake is strictly positive; a stake is positive
   * only for such a bet.
   */
  lemma KellyPositive(p: real, odds: int)
    requires odds != 0
    ensures NormBet(p, odds).value > 0.0 <==> p > ImpliedPct(odds)
  {
    ImpliedPctIsBreakEven(odds);
    var g := GainRatio(odds);
    var b := p - (1.0 - p) / g;
    assert b * g == p * g - (1.0 - p);
    assert b > 0.0 <==> p * (1.0 + g) > 1.0 by {
      assert b > 0.0 <==> b * g > 0.0;
    }
    assert p * (1.0 + g) > 1.0 <==> p > 1.0 / (1.0 + g) by {
      assert (1.0 / (1.0 + g)) * (1.0 + g) == 1.0;
    }
  }

  /** Net result of a bet: stake times gain on a win, minus the stake on a loss, 0 without a result. */
  function NetWin(bet: real, gain: real, win: Option<int>): real
  {
    if win == Some(1) then bet * gain else if win == Some(0) then -bet else 0.0
  }

  /**
   * At the model's probability the expected net result of the Kelly stake is
   * gain * stake^2, positive for every bet placed.
   */
  lemma ExpectedNetWin(p: real, odds: int)
    requires odds != 0 && p > ImpliedPct(odds)
    ensures var b := NormBet(p, odds).value; var g := GainRatio(odds);
      p * NetWin(b, g, Some(1)) + (1.0 - p) * NetWin(b, g, Some(0)) == g * b * b > 0.0
  {
    KellyPositive(p, odds);
    var g := GainRatio(odds);
    var b := NormBet(p, odds).value;
    assert b * g == p * g - (1.0 - p);
    assert p * (b * g) + (1.0 - p) * -b == b * (p * g - (1.0 - p));
  }

  /** A model prediction for a home team against its opponent. */
  datatype Prediction = Prediction(date: int, team: string, opp: string, winProba: real)

  /** A side of a game with the model's probability for that side. */
  datatype Side = Side(date: int, team: string, opp: string, winProba: real, home: int)

  /** One home row with the prediction, then one away row with its complement, per game. */
  function Sides(preds: seq<Prediction>): (s: seq<Side>)
    ensures |s| == 2 * |preds|
    ensures forall k :: 0 <= k < |preds| ==>
      s[k] == Side(preds[k].date, preds[k].team, preds[k].opp, preds[k].winProba, 1)
    ensures forall k :: 0 <= k < |preds| ==>
      s[|preds| + k] == Side(preds[k].date, preds[k].opp, preds[k].team, 1.0 - preds[k].winProba, 0)
  {
    seq(|preds|, k requires 0 <= k < |preds| => Side(preds[k].date, preds[k].team, preds[k].opp, preds[k].winProba, 1)) +
    seq(|preds|, k requires 0 <= k < |preds| => Side(preds[k].date, preds[k].opp, preds[k].team, 1.0 - preds[k].winProba, 0))
  }

  /**
   * The two sides of a game are mirror images: teams swapped, probabilities
   * adding to one. When the bookmaker's two implied probabilities add to at
   * least one (the usual margin), the model never bets both sides.
   */
  lemma NeverBothSides(preds: seq<Prediction>, k: nat, homeOdds: int, awayOdds: int)
    requires k < |preds|
    requires ImpliedPct(homeOdds) + ImpliedPct(awayOdds) >= 1.0
    ensures var s := Sides(preds); var h := s[k]; var a := s[|preds| + k];
      h.team == a.opp && h.opp == a.team && h.winProba + a.winProba == 1.0 &&
      !(h.winProba > ImpliedPct(homeOdds) && a.winProba > ImpliedPct(awayOdds))
  {
  }

  /** A money line joined with the model's side and the game's result. */
  datatype Line = Line(date: int, team: string, odds: int, winProba: real, win: Option<int>)

  /** Net result of betting the Kelly stake on every line the model beats. */
  function NetTotal(lines: seq<Line>): real
    decreases lines
  {
    if lines == [] then 0.0
    else
      var l := lines[0];
      var here := if l.winProba > ImpliedPct(l.odds) && l.odds != 0
        then NetWin(NormBet(l.winProba, l.odds).value, GainRatio(l.odds), l.win) else 0.0;
      here + NetTotal(lines[1..])
  }

  /**
   * Lines the model does not beat contribute nothing, and a won bet returns
   * its positive stake times the gain.
   */
  lemma NetTotalOfOne(l: Line)
    requires l.odds != 0
    ensures l.winProba <= ImpliedPct(l.odds) ==> NetTotal([l]) == 0.0
    ensures l.winProba > ImpliedPct(l.odds) && l.win == Some(1) ==> NetTotal([l]) > 0.0
    ensures l.winProba > ImpliedPct(l.odds) && l.win == Some(0) ==> NetTotal([l]) < 0.0
  {
    assert [l][1..] == [];
    if l.winProba > ImpliedPct(l.odds) {
      KellyPositive(l.winProba, l.odds);
    }
  }
}
