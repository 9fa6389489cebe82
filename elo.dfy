/**
 * Team Elo ratings (add_elo and add_scheduled_games): a fold over the games of
 * a team-game table in date order. Every row starts at 1500; a team's first
 * game of a season, when it is not its first game ever, is regressed toward
 * 1505; after the game each team's new rating is written to its next row.
 *
 * A rating of `None` stands for a missing or non-finite value (NaN or an
 * infinity in the original), which arithmetic propagates.
 */
module Elo {
  import opened Wrappers
  import opened Seqs

  const StartRating: real := 1500.0
  const RegressionTarget: real := 1505.0

  /** One row of the team-game table, taken in (date, game) order. */
  datatype TeamGameRow = TeamGameRow(
    team: string, season: int, gameId: int, dateInt: int, home: Option<int>,
    teamGameRank: Option<int>, win: Option<int>, goals: Option<int>)

  /** Season-start regression: 70% of the old rating plus 30% of 1505. */
  function Regress(e: real): (r: real)
    ensures r - RegressionTarget == 0.7 * (e - RegressionTarget)
  {
    e * 0.7 + RegressionTarget * 0.3
  }

  /** The regressed rating lies between the old rating and 1505, strictly closer to 1505. */
  lemma RegressTowardTarget(e: real)
    ensures e <= RegressionTarget ==> e <= Regress(e) <= RegressionTarget
    ensures e >= RegressionTarget ==> RegressionTarget <= Regress(e) <= e
    ensures e != RegressionTarget ==> Dist(Regress(e), RegressionTarget) < Dist(e, RegressionTarget)
  {
  }

  function Dist(a: real, b: real): real { if a >= b then a - b else b - a }

  /** Logistic win expectation of a team rated `own` against one rated `opp`. */
  function WinProbability(own: real, opp: real, pow10: real -> real): (p: real)
    requires forall x :: pow10(x) > 0.0
    ensures 0.0 < p < 1.0
  {
    1.0 / (pow10((opp - own) / 400.0) + 1.0)
  }

  /** The two expectations of a game add up to one. */
  lemma ProbabilitiesSumToOne(e1: real, e2: real, pow10: real -> real)
    requires forall x :: pow10(x) > 0.0
    requires forall x :: pow10(x) * pow10(-x) == 1.0
    ensures WinProbability(e1, e2, pow10) + WinProbability(e2, e1, pow10) == 1.0
  {
    var d := (e2 - e1) / 400.0;
    assert (e1 - e2) / 400.0 == -d;
    var a := pow10(d);
    var b := pow10(-d);
    assert a * b == 1.0;
    assert a > 0.0 && b > 0.0;
    assert 1.0 / (b + 1.0) == a / (a + 1.0) by {
      assert (b + 1.0) * a == a + 1.0;
    }
    assert 1.0 / (a + 1.0) + a / (a + 1.0) == (1.0 + a) / (a + 1.0);
  }

  function Abs(x: int): nat { if x < 0 then -x else x }
  function MaxInt(a: int, b: int): int { if a >= b then a else b }

  /** Margin-of-victory multiplier: 0.6686 ln(max(|goal difference|, 1)) + 0.8048. */
  function MarginMultiplier(g1: int, g2: int, ln: real -> real): real
  {
    0.6686 * ln(MaxInt(Abs(g1 - g2), 1) as real) + 0.8048
  }

  /** Both teams of a game get the same margin multiplier, and a one-goal game gets 0.8048. */
  lemma MarginMultiplierShared(g1: int, g2: int, ln: real -> real)
    ensures MarginMultiplier(g1, g2, ln) == MarginMultiplier(g2, g1, ln)
    ensures ln(1.0) == 0.0 && Abs(g1 - g2) <= 1 ==> MarginMultiplier(g1, g2, ln) == 0.8048
  {
  }

  /**
   * Favourite dampening factors (a1, a2). When the first team is the
   * favourite and wins, its factor is 2.05 / (0.001 (e1 - e2) + 2.05); when
   * the second is and wins, its factor uses the same signed difference
   * e1 - e2; otherwise both are 1. The second factor is `None` (an infinity)
   * when its denominator vanishes.
   */
  function AutoAdjust(e1: real, e2: real, win1: Option<int>, win2: Option<int>): (real, Option<real>)
  {
    if e1 > e2 && win1 == Some(1) then (2.05 / ((e1 - e2) * 0.001 + 2.05), Some(1.0))
    else if e2 > e1 && win2 == Some(1) then
      var d := (e1 - e2) * 0.001 + 2.05;
      (1.0, if d == 0.0 then None else Some(2.05 / d))
    else (1.0, Some(1.0))
  }

  /**
   * A first-listed favourite that wins is dampened into (0, 1); a
   * second-listed favourite that wins is amplified above 1 (less than 2050
   * points ahead) because the difference keeps its sign; in every other case
   * both factors are 1. The factors therefore depend on which of the two rows
   * of a game comes first.
   */
  lemma AutoAdjustFactors(e1: real, e2: real, win1: Option<int>, win2: Option<int>)
    ensures e1 > e2 && win1 == Some(1) ==>
      0.0 < AutoAdjust(e1, e2, win1, win2).0 < 1.0 && AutoAdjust(e1, e2, win1, win2).1 == Some(1.0)
    ensures e2 > e1 && win2 == Some(1) && e2 - e1 < 2050.0 ==>
      AutoAdjust(e1, e2, win1, win2).0 == 1.0 &&
      AutoAdjust(e1, e2, win1, win2).1.Some? && AutoAdjust(e1, e2, win1, win2).1.value > 1.0
    ensures e2 > e1 && win2 == Some(1) && e2 - e1 == 2050.0 ==> AutoAdjust(e1, e2, win1, win2).1.None?
    ensures !(e1 > e2 && win1 == Some(1)) && !(e2 > e1 && win2 == Some(1)) ==>
      AutoAdjust(e1, e2, win1, win2) == (1.0, Some(1.0))
    ensures e1 > e2 && win1 == Some(1) && e1 - e2 < 2050.0 ==>
      AutoAdjust(e2, e1, win2, win1).1.Some? && AutoAdjust(e2, e1, win2, win1).1.value > 1.0 > AutoAdjust(e1, e2, win1, win2).0
  {
    if e2 > e1 && win2 == Some(1) && e2 - e1 < 2050.0 {
      var d := (e1 - e2) * 0.001 + 2.05;
      assert 0.0 < d < 2.05;
      assert 2.05 / d > 1.0 by {
        assert (2.05 / d) * d == 2.05;
      }
    }
    if e1 > e2 && win1 == Some(1) {
      var d := (e1 - e2) * 0.001 + 2.05;
      assert d > 2.05;
      assert 2.05 / d < 1.0 by {
        assert (2.05 / d) * d == 2.05;
      }
      if e1 - e2 < 2050.0 {
        var d' := (e2 - e1) * 0.001 + 2.05;
        assert 0.0 < d' < 2.05;
        assert 2.05 / d' > 1.0 by {
          assert (2.05 / d') * d' == 2.05;
        }
      }
    }
  }

  /**
   * New ratings of the two teams of a game, from their (possibly regressed)
   * ratings, win flags and goals: e + 6 m a (win - p). A side's new rating is
   * missing when either rating, either goal count, its own win flag or its
   * own dampening factor is.
   */
  function GameUpdate(e1: Option<real>, e2: Option<real>, win1: Option<int>, win2: Option<int>,
                      g1: Option<int>, g2: Option<int>, pow10: real -> real, ln: real -> real): (Option<real>, Option<real>)
    requires forall x :: pow10(x) > 0.0
  {
    if e1.None? || e2.None? || g1.None? || g2.None? then (None, None)
    else
      var a := e1.value;
      var b := e2.value;
      var m := MarginMultiplier(g1.value, g2.value, ln);
      var f := AutoAdjust(a, b, win1, win2);
      var n1 := if win1.Some? then Some(a + 6.0 * m * f.0 * (win1.value as real - WinProbability(a, b, pow10))) else None;
      var n2 := if win2.Some? && f.1.Some? then Some(b + 6.0 * m * f.1.value * (win2.value as real - WinProbability(b, a, pow10))) else None;
      (n1, n2)
  }

  /**
   * Zero sum: when neither favourite won (both factors 1) and exactly one team
   * won, one team gains what the other loses; the winner gains.
   */
  lemma GameUpdateZeroSum(e1: real, e2: real, w1: int, w2: int, g1: int, g2: int, pow10: real -> real, ln: real -> real)
    requires forall x :: pow10(x) > 0.0
    requires forall x :: pow10(x) * pow10(-x) == 1.0
    requires AutoAdjust(e1, e2, Some(w1), Some(w2)) == (1.0, Some(1.0))
    requires w1 + w2 == 1 && 0 <= w1 <= 1
    requires ln(MaxInt(Abs(g1 - g2), 1) as real) >= 0.0
    ensures var r := GameUpdate(Some(e1), Some(e2), Some(w1), Some(w2), Some(g1), Some(g2), pow10, ln);
      r.0.Some? && r.1.Some? && r.0.value - e1 == -(r.1.value - e2) &&
      (w1 == 1 ==> r.0.value > e1)
  {
    ProbabilitiesSumToOne(e1, e2, pow10);
    var m := MarginMultiplier(g1, g2, ln);
    var p1 := WinProbability(e1, e2, pow10);
    var p2 := WinProbability(e2, e1, pow10);
    assert (w2 as real - p2) == -(w1 as real - p1);
    assert 6.0 * m * 1.0 * (w2 as real - p2) == -(6.0 * m * 1.0 * (w1 as real - p1));
    if w1 == 1 {
      assert m > 0.0;
      assert 1.0 - p1 > 0.0;
      assert 6.0 * m * 1.0 * (w1 as real - p1) > 0.0;
    }
  }

  /** Two teams rated 1500 and a one-goal win: 1502.4144 and 1497.5856. */
  lemma EvenGameExample(pow10: real -> real, ln: real -> real)
    requires forall x :: pow10(x) > 0.0
    requires pow10(0.0) == 1.0 && ln(1.0) == 0.0
    ensures GameUpdate(Some(1500.0), Some(1500.0), Some(1), Some(0), Some(3), Some(2), pow10, ln) ==
      (Some(1502.4144), Some(1497.5856))
  {
    assert (1500.0 - 1500.0) / 400.0 == 0.0;
    assert WinProbability(1500.0, 1500.0, pow10) == 0.5;
    assert MarginMultiplier(3, 2, ln) == 0.8048;
  }

  // ---------------------------------------------------------------------
  // The table.

  /** Dense rank of each row's date among its team's rows (all seasons). */
  function OverallRanks(rows: seq<TeamGameRow>): (r: seq<nat>)
    ensures |r| == |rows|
    ensures forall i :: 0 <= i < |rows| ==> r[i] >= 1
  {
    var teams := seq(|rows|, i requires 0 <= i < |rows| => rows[i].team);
    var dates := seq(|rows|, i requires 0 <= i < |rows| => rows[i].dateInt);
    seq(|rows|, i requires 0 <= i < |rows| => DenseRank(teams, dates, i))
  }

  /** Game ids in order of first appearance, each once. */
  function GameIds(rows: seq<TeamGameRow>): (g: seq<int>)
    ensures forall i :: 0 <= i < |rows| ==> rows[i].gameId in g
    ensures forall x :: x in g ==> exists i :: 0 <= i < |rows| && rows[i].gameId == x
    ensures forall i, j :: 0 <= i < j < |g| ==> g[i] != g[j]
    ensures forall a, b :: 0 <= a < b < |g| ==>
      exists i :: 0 <= i < |rows| && rows[i].gameId == g[a] && forall j :: 0 <= j < |rows| && rows[j].gameId == g[b] ==> i < j
  {
    var ids := seq(|rows|, i requires 0 <= i < |rows| => rows[i].gameId);
    assert forall i :: 0 <= i < |rows| ==> rows[i].gameId == ids[i];
    DistinctFirstAppearance(ids);
    Distinct(ids)
  }

  /** Indices of the rows of game `gid` from index `from` on, in table order. */
  function RowsOf(rows: seq<TeamGameRow>, gid: int, from: nat): (ix: seq<nat>)
    requires from <= |rows|
    ensures forall k :: 0 <= k < |ix| ==> from <= ix[k] < |rows| && rows[ix[k]].gameId == gid
    ensures forall k, l :: 0 <= k < l < |ix| ==> ix[k] < ix[l]
    ensures forall k :: from <= k < |rows| && rows[k].gameId == gid ==> k in ix
    decreases |rows| - from
  {
    if from == |rows| then []
    else if rows[from].gameId == gid then [from] + RowsOf(rows, gid, from + 1)
    else RowsOf(rows, gid, from + 1)
  }

  /** Write `v` to every row of `team` whose overall rank is `rank`. */
  function WriteRating(elo: seq<Option<real>>, rows: seq<TeamGameRow>, ranks: seq<nat>, team: string, rank: int, v: Option<real>): (r: seq<Option<real>>)
    requires |elo| == |rows| == |ranks|
    ensures |r| == |elo|
  {
    seq(|elo|, k requires 0 <= k < |elo| => if rows[k].team == team && ranks[k] == rank then v else elo[k])
  }

  /** Row `i` opens a season for its team that is not the team's first. */
  predicate Regresses(rows: seq<TeamGameRow>, ranks: seq<nat>, i: nat)
    requires |rows| == |ranks| && i < |rows|
  {
    rows[i].teamGameRank == Some(1) && ranks[i] > 1
  }

  /** Rating of row `i` going into its game: the stored rating, regressed when it opens a season. */
  function RatingBefore(rows: seq<TeamGameRow>, ranks: seq<nat>, elo: seq<Option<real>>, i: nat): Option<real>
    requires |rows| == |ranks| == |elo| && i < |rows|
  {
    if Regresses(rows, ranks, i) && elo[i].Some? then Some(Regress(elo[i].value))
    else elo[i]
  }

  /**
   * One game: the first two rows of the game are the two teams; each
   * regressed rating is stored on the team's current row, and each new
   * rating on the team's row with the next overall rank. No game when it has
   * fewer than two rows.
   */
  function PlayGame(rows: seq<TeamGameRow>, ranks: seq<nat>, elo: seq<Option<real>>, gid: int,
                    pow10: real -> real, ln: real -> real): (r: Option<seq<Option<real>>>)
    requires |rows| == |ranks| == |elo|
    requires forall x :: pow10(x) > 0.0
    ensures r.Some? ==> |r.value| == |elo|
    ensures r.None? <==> |RowsOf(rows, gid, 0)| < 2
  {
    var ix := RowsOf(rows, gid, 0);
    if |ix| < 2 then None
    else
      var i := ix[0];
      var j := ix[1];
      var e1 := RatingBefore(rows, ranks, elo, i);
      var e2 := RatingBefore(rows, ranks, elo, j);
      var s1 := if Regresses(rows, ranks, i) then WriteRating(elo, rows, ranks, rows[i].team, ranks[i], e1) else elo;
      var s2 := if Regresses(rows, ranks, j) then WriteRating(s1, rows, ranks, rows[j].team, ranks[j], e2) else s1;
      var n := GameUpdate(e1, e2, rows[i].win, rows[j].win, rows[i].goals, rows[j].goals, pow10, ln);
      var s3 := WriteRating(s2, rows, ranks, rows[i].team, ranks[i] + 1, n.0);
      Some(WriteRating(s3, rows, ranks, rows[j].team, ranks[j] + 1, n.1))
  }

  /** Row `k` belongs to team `t` at overall rank `r` or `r + 1`. */
  predicate AtOrAfter(rows: seq<TeamGameRow>, ranks: seq<nat>, k: nat, t: string, r: int)
    requires |rows| == |ranks| && k < |rows|
  {
    rows[k].team == t && (ranks[k] == r || ranks[k] == r + 1)
  }

  /**
   * A game changes only its two teams' current and next rows: each team's
   * next row receives its new rating, and its current row the regressed
   * rating when the game opens a season (and is left alone otherwise).
   */
  lemma PlayGameWrites(rows: seq<TeamGameRow>, ranks: seq<nat>, elo: seq<Option<real>>, gid: int,
                       pow10: real -> real, ln: real -> real)
    requires |rows| == |ranks| == |elo|
    requires forall x :: pow10(x) > 0.0
    requires |RowsOf(rows, gid, 0)| >= 2
    ensures var ix := RowsOf(rows, gid, 0); var i := ix[0]; var j := ix[1];
      var out := PlayGame(rows, ranks, elo, gid, pow10, ln).value;
      var n := GameUpdate(RatingBefore(rows, ranks, elo, i), RatingBefore(rows, ranks, elo, j),
                          rows[i].win, rows[j].win, rows[i].goals, rows[j].goals, pow10, ln);
      (forall k ::
         (0 <= k < |elo| && !AtOrAfter(rows, ranks, k, rows[i].team, ranks[i]) && !AtOrAfter(rows, ranks, k, rows[j].team, ranks[j]))
         ==> out[k] == elo[k]) &&
      (rows[i].team != rows[j].team ==>
        (forall k :: 0 <= k < |elo| && rows[k].team == rows[i].team && ranks[k] == ranks[i] + 1 ==> out[k] == n.0) &&
        (forall k :: 0 <= k < |elo| && rows[k].team == rows[j].team && ranks[k] == ranks[j] + 1 ==> out[k] == n.1) &&
        (forall k :: 0 <= k < |elo| && rows[k].team == rows[i].team && ranks[k] == ranks[i] ==>
           out[k] == (if Regresses(rows, ranks, i) then RatingBefore(rows, ranks, elo, i) else elo[k])) &&
        (forall k :: 0 <= k < |elo| && rows[k].team == rows[j].team && ranks[k] == ranks[j] ==>
           out[k] == (if Regresses(rows, ranks, j) then RatingBefore(rows, ranks, elo, j) else elo[k])))
  {
  }

  function InitialRatings(n: nat): (r: seq<Option<real>>)
    ensures |r| == n && forall k :: 0 <= k < n ==> r[k] == Some(StartRating)
  {
    seq(n, _ => Some(StartRating))
  }

  /** The ratings after the games `gids`, in order, starting every row at 1500. */
  function EloFold(rows: seq<TeamGameRow>, ranks: seq<nat>, gids: seq<int>, pow10: real -> real, ln: real -> real): (r: Option<seq<Option<real>>>)
    requires |rows| == |ranks|
    requires forall x :: pow10(x) > 0.0
    ensures r.Some? ==> |r.value| == |rows|
    decreases |gids|
  {
    if gids == [] then Some(InitialRatings(|rows|))
    else
      var prev := EloFold(rows, ranks, gids[..|gids| - 1], pow10, ln);
      if prev.None? then None
      else PlayGame(rows, ranks, prev.value, gids[|gids| - 1], pow10, ln)
  }

  /** The fold is defined exactly when every game it plays has two rows. */
  lemma {:induction false} EloFoldDefined(rows: seq<TeamGameRow>, ranks: seq<nat>, gids: seq<int>, pow10: real -> real, ln: real -> real)
    requires |rows| == |ranks|
    requires forall x :: pow10(x) > 0.0
    ensures EloFold(rows, ranks, gids, pow10, ln).Some? <==> forall g :: g in gids ==> |RowsOf(rows, g, 0)| >= 2
    decreases |gids|
  {
    if gids != [] {
      var init := gids[..|gids| - 1];
      var last := gids[|gids| - 1];
      EloFoldDefined(rows, ranks, init, pow10, ln);
      assert gids == init + [last];
      assert forall g :: g in gids <==> g in init || g == last;
      var prev := EloFold(rows, ranks, init, pow10, ln);
      if prev.Some? {
        var out := PlayGame(rows, ranks, prev.value, last, pow10, ln);
        assert EloFold(rows, ranks, gids, pow10, ln) == out;
        assert out.None? <==> |RowsOf(rows, last, 0)| < 2;
        assert forall g :: g in init ==> |RowsOf(rows, g, 0)| >= 2;
      } else {
        assert EloFold(rows, ranks, gids, pow10, ln).None?;
      }
    }
  }

  /** A table of team-game rows with one rating per row. */
  class EloTable {
    const rows: seq<TeamGameRow>
    var ratings: seq<Option<real>>

    predicate Valid()
      reads this
    {
      |ratings| == |rows|
    }

    constructor (rows: seq<TeamGameRow>)
      ensures this.rows == rows && ratings == InitialRatings(|rows|) && Valid()
    {
      this.rows := rows;
      ratings := InitialRatings(|rows|);
    }

    /**
     * Rate every game of the table: reset every row to 1500, then play each
     * game id once, in order of first appearance. Fails when a game has
     * fewer than two rows.
     */
    method AddElo(pow10: real -> real, ln: real -> real) returns (ok: bool)
      requires forall x :: pow10(x) > 0.0
      modifies this
      ensures Valid()
      ensures ok <==> EloFold(rows, OverallRanks(rows), GameIds(rows), pow10, ln).Some?
      ensures ok ==> ratings == EloFold(rows, OverallRanks(rows), GameIds(rows), pow10, ln).value
    {
      var ranks := OverallRanks(rows);
      var gids := GameIds(rows);
      ratings := InitialRatings(|rows|);
      var i := 0;
      while i < |gids|
        invariant 0 <= i <= |gids|
        invariant |ratings| == |rows|
        invariant EloFold(rows, ranks, gids[..i], pow10, ln) == Some(ratings)
      {
        var next := PlayGame(rows, ranks, ratings, gids[i], pow10, ln);
        FoldStep(rows, ranks, gids, i, ratings, pow10, ln);
        if next.None? {
          EloFoldNoneExtends(rows, ranks, gids, i + 1, pow10, ln);
          return false;
        }
        ratings := next.value;
        i := i + 1;
      }
      assert gids[..i] == gids;
      ok := true;
    }
  }

  /** One more game extends the fold by playing it on the ratings so far. */
  lemma FoldStep(rows: seq<TeamGameRow>, ranks: seq<nat>, gids: seq<int>, i: nat, ratings: seq<Option<real>>,
                 pow10: real -> real, ln: real -> real)
    requires |rows| == |ranks| && i < |gids|
    requires forall x :: pow10(x) > 0.0
    requires EloFold(rows, ranks, gids[..i], pow10, ln) == Some(ratings)
    ensures EloFold(rows, ranks, gids[..i + 1], pow10, ln) == PlayGame(rows, ranks, ratings, gids[i], pow10, ln)
  {
    assert gids[..i + 1][..i] == gids[..i];
  }

  /** Once the fold fails on a prefix it fails on every longer prefix. */
  lemma {:induction false} EloFoldNoneExtends(rows: seq<TeamGameRow>, ranks: seq<nat>, gids: seq<int>, n: nat, pow10: real -> real, ln: real -> real)
    requires |rows| == |ranks| && n <= |gids|
    requires forall x :: pow10(x) > 0.0
    requires EloFold(rows, ranks, gids[..n], pow10, ln).None?
    ensures EloFold(rows, ranks, gids, pow10, ln).None?
    decreases |gids| - n
  {
    if n < |gids| {
      assert gids[..n + 1][..n] == gids[..n];
      EloFoldNoneExtends(rows, ranks, gids, n + 1, pow10, ln);
    } else {
      assert gids[..n] == gids;
    }
  }

  // ---------------------------------------------------------------------
  // Scheduled games (add_scheduled_games).

  datatype ScheduledGame = ScheduledGame(gameId: int, dateInt: int, home: string, away: string)

  /** Team code replacements for relocated or abbreviated teams. */
  function TeamCode(t: string): string
  {
    if t == "PHX" then "ARI" else if t == "S.J" then "SJS" else if t == "L.A" then "LAK"
    else if t == "T.B" then "TBL" else if t == "N.J" then "NJD" else t
  }

  function ScheduleRow(g: ScheduledGame, isHome: bool, season: int): TeamGameRow
  {
    TeamGameRow(TeamCode(if isHome then g.home else g.away), season, g.gameId, g.dateInt,
                Some(if isHome then 1 else 0), None, None, None)
  }

  /** All home rows, then all away rows. */
  function ScheduleRows(games: seq<ScheduledGame>, season: int): (r: seq<TeamGameRow>)
  {
    seq(|games|, k requires 0 <= k < |games| => ScheduleRow(games[k], true, season)) +
    seq(|games|, k requires 0 <= k < |games| => ScheduleRow(games[k], false, season))
  }

  /** Earliest scheduled date (the schedule is non-empty). */
  function MinDate(games: seq<ScheduledGame>): (d: int)
    requires |games| > 0
    ensures forall k :: 0 <= k < |games| ==> d <= games[k].dateInt
    ensures exists k :: 0 <= k < |games| && games[k].dateInt == d
  {
    if |games| == 1 then games[0].dateInt
    else
      var rest := MinDate(games[1..]);
      if games[0].dateInt <= rest then games[0].dateInt else rest
  }

  /**
   * History rows dated before the first scheduled game, followed by the
   * schedule rows; with an empty schedule the earliest date is missing, no
   * history row compares below it, and the table is empty.
   */
  function WithScheduledGames(history: seq<TeamGameRow>, games: seq<ScheduledGame>, season: int): seq<TeamGameRow>
  {
    if games == [] then []
    else Filter(history, (r: TeamGameRow) => r.dateInt < MinDate(games)) + ScheduleRows(games, season)
  }

  /**
   * Each scheduled game yields one home row (Home = 1) and one away row
   * (Home = 0) for the season being predicted, under the replaced team codes,
   * without result, goals or season rank.
   */
  lemma ScheduleRowsFacts(games: seq<ScheduledGame>, season: int)
    ensures |ScheduleRows(games, season)| == 2 * |games|
    ensures forall k :: 0 <= k < |games| ==>
      var home := ScheduleRows(games, season)[k];
      home.gameId == games[k].gameId && home.home == Some(1) && home.team == TeamCode(games[k].home)
    ensures forall k :: |games| <= k < 2 * |games| ==>
      var away := ScheduleRows(games, season)[k];
      away.gameId == games[k - |games|].gameId && away.home == Some(0) && away.team == TeamCode(games[k - |games|].away)
    ensures forall r :: r in ScheduleRows(games, season) ==> r.season == season && r.win.None? && r.teamGameRank.None?
  {
  }

  /**
   * The table for prediction is the kept history followed by the schedule
   * rows, and every kept history row precedes every scheduled game.
   */
  lemma HistoryBeforeSchedule(history: seq<TeamGameRow>, games: seq<ScheduledGame>, season: int)
    requires games != []
    ensures var t := WithScheduledGames(history, games, season);
      var h := |t| - 2 * |games|;
      h >= 0 && t[h..] == ScheduleRows(games, season) &&
      forall k :: 0 <= k < h ==> t[k] in history && forall g :: g in games ==> t[k].dateInt < g.dateInt
    ensures var t := WithScheduledGames(history, games, season);
      forall r :: r in history && (forall g :: g in games ==> r.dateInt < g.dateInt) ==> r in t[..|t| - 2 * |games|]
  {
    var f := Filter(history, (r: TeamGameRow) => r.dateInt < MinDate(games));
    var t := WithScheduledGames(history, games, season);
    assert t == f + ScheduleRows(games, season);
    assert t[|f|..] == ScheduleRows(games, season);
    forall k | 0 <= k < |f| ensures t[k] in history && forall g :: g in games ==> t[k].dateInt < g.dateInt {
      assert t[k] == f[k];
      assert f[k] in f;
    }
    assert t[..|f|] == f;
    forall r | r in history && (forall g :: g in games ==> r.dateInt < g.dateInt) ensures r in t[..|f|] {
      var m :| 0 <= m < |games| && games[m].dateInt == MinDate(games);
      assert games[m] in games;
    }
  }
}
