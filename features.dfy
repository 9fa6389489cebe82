/**
 * Game features (add_game_features and _add_lag): rookie preseason
 * defaults, the tanh blend of in-season and preseason ratings for players
 * and teams, the Elo differences, the lagged rolling means and the matchup
 * differences of a home team against its opponent.
 *
 * np.tanh is a parameter `tanh` constrained by `TanhLike`.
 */
module Features {
  import opened Wrappers
  import opened Seqs

  // ---------------------------------------------------------------------
  // Rookie preseason defaults
  // ---------------------------------------------------------------------

  /** The five skater ratings projected for each game; goalies get "xGI60". */
  const SkaterRatings: seq<string> := ["xGC60_5v5", "xGP60_5v5", "xGC60_PP", "xGP60_PK", "xGI60_Pens"]
  const GoalieRating: string := "xGI60"

  /** A forward or defenceman with a skater rating, or a goalie with the goalie rating. */
  predicate Projects(position: string, rating: string)
  {
    ((position == "F" || position == "D") && rating in SkaterRatings) || (position == "G" && rating == GoalieRating)
  }

  /** The preseason rating a player without one is given, by position and rating. */
  function RookieDefault(position: string, rating: string): (d: Option<real>)
    ensures d.Some? <==> Projects(position, rating)
  {
    if position == "F" then
      if rating == "xGC60_5v5" then Some(0.0179)
      else if rating == "xGP60_5v5" then Some(-0.0127)
      else if rating == "xGC60_PP" then Some(-0.1067)
      else if rating == "xGP60_PK" then Some(-0.5281)
      else if rating == "xGI60_Pens" then Some(-0.0048)
      else None
    else if position == "D" then
      if rating == "xGC60_5v5" then Some(-0.0005)
      else if rating == "xGP60_5v5" then Some(0.0337)
      else if rating == "xGC60_PP" then Some(-0.1030)
      else if rating == "xGP60_PK" then Some(-0.0717)
      else if rating == "xGI60_Pens" then Some(-0.0267)
      else None
    else if position == "G" && rating == GoalieRating then Some(-0.0147)
    else None
  }

  /**
   * A missing preseason rating is filled with the rookie default; a present
   * one is never overwritten, and after the fill every rating a player's
   * position projects is present.
   */
  function FillPreseason(position: string, rating: string, pre: Option<real>): (p: Option<real>)
    ensures pre.Some? ==> p == pre
    ensures p.Some? <==> pre.Some? || Projects(position, rating)
    ensures pre.None? && p.Some? ==> p == RookieDefault(position, rating)
  {
    if pre.Some? then pre else RookieDefault(position, rating)
  }

  // ---------------------------------------------------------------------
  // The tanh blend
  // ---------------------------------------------------------------------

  /** What the blend needs of tanh: tanh 0 = 0, values in [0, 1) for x >= 0, non-decreasing. */
  ghost predicate TanhLike(tanh: real -> real)
  {
    && tanh(0.0) == 0.0
    && (forall x :: 0.0 <= x ==> 0.0 <= tanh(x) < 1.0)
    && (forall x, y :: 0.0 <= x <= y ==> tanh(x) <= tanh(y))
  }

  /** Weight of the in-season value in game n of a season: tanh((n - 1) / coef). */
  function InseasonWeight(tanh: real -> real, n: int, coef: real): real
    requires coef != 0.0
  {
    tanh((n - 1) as real / coef)
  }

  /** The weight is 0 in the first game, below 1 always, and grows with the game number. */
  lemma WeightRange(tanh: real -> real, n: int, m: int, coef: real)
    requires TanhLike(tanh) && coef > 0.0 && 1 <= n <= m
    ensures 0.0 <= InseasonWeight(tanh, n, coef) <= InseasonWeight(tanh, m, coef) < 1.0
    ensures n == 1 ==> InseasonWeight(tanh, n, coef) == 0.0
  {
    var x := (n - 1) as real / coef;
    var y := (m - 1) as real / coef;
    assert 0.0 <= x <= y by {
      QuotientOrder((n - 1) as real, (m - 1) as real, coef);
    }
    if n == 1 {
      assert x == 0.0;
    }
  }

  lemma QuotientOrder(a: real, b: real, c: real)
    requires 0.0 <= a <= b && c > 0.0
    ensures 0.0 <= a / c <= b / c
  {
  }

  /** x lies between a and b, whichever is larger. */
  predicate Between(x: real, a: real, b: real)
  {
    (a <= x <= b) || (b <= x <= a)
  }

  /** w * in-season + (1 - w) * preseason; missing when either input is. */
  function Blend(w: real, prev: Option<real>, pre: Option<real>): (r: Option<real>)
    ensures r.Some? <==> prev.Some? && pre.Some?
  {
    if prev.Some? && pre.Some? then Some(w * prev.value + (1.0 - w) * pre.value) else None
  }

  /**
   * The blend moves the preseason value a fraction w of the way towards the
   * in-season value: it stays between the two, equals the preseason value at
   * w = 0 and equals both when they agree.
   */
  lemma BlendBetween(w: real, prev: real, pre: real)
    requires 0.0 <= w <= 1.0
    ensures Blend(w, Some(prev), Some(pre)).value - pre == w * (prev - pre)
    ensures Between(Blend(w, Some(prev), Some(pre)).value, prev, pre)
    ensures w == 0.0 ==> Blend(w, Some(prev), Some(pre)) == Some(pre)
  {
    var r := Blend(w, Some(prev), Some(pre)).value;
    assert r - pre == w * (prev - pre);
    var d := prev - pre;
    if d >= 0.0 {
      FractionBelow(w, d);
      assert pre <= r <= prev;
    } else {
      FractionBelow(w, -d);
      assert w * -d == -(w * d);
      assert prev <= r <= pre;
    }
  }

  lemma FractionBelow(w: real, d: real)
    requires 0.0 <= w <= 1.0 && d >= 0.0
    ensures 0.0 <= w * d <= d
  {
    assert d - w * d == (1.0 - w) * d;
  }

  // ---------------------------------------------------------------------
  // Player projections
  // ---------------------------------------------------------------------

  /**
   * A player's row in one game: the in-season values so far (`prevGames`,
   * keyed by the projected rating's name), the preseason ratings and the
   * current rating columns.
   */
  datatype PlayerGame = PlayerGame(team: string, season: int, dateInt: int, position: string,
                                   current: map<string, Option<real>>,
                                   prevGames: map<string, Option<real>>,
                                   preseason: map<string, Option<real>>)

  /** The tanh scale of each projected rating, by position. */
  function TanhCoef(position: string, rating: string): (c: Option<real>)
    ensures c.Some? <==> Projects(position, rating)
    ensures c.Some? ==> c.value > 0.0
  {
    if position == "F" then
      if rating == "xGC60_5v5" then Some(115.0)
      else if rating == "xGP60_5v5" then Some(148.0)
      else if rating == "xGC60_PP" then Some(235.0)
      else if rating == "xGP60_PK" then Some(121.0)
      else if rating == "xGI60_Pens" then Some(151.0)
      else None
    else if position == "D" then
      if rating == "xGC60_5v5" then Some(108.0)
      else if rating == "xGP60_5v5" then Some(125.0)
      else if rating == "xGC60_PP" then Some(194.0)
      else if rating == "xGP60_PK" then Some(75.0)
      else if rating == "xGI60_Pens" then Some(90.0)
      else None
    else if position == "G" && rating == GoalieRating then Some(39.0)
    else None
  }

  /**
   * The projected rating of one row: in game 1 every one of the six ratings
   * takes the (filled) preseason value, whatever the position; in a later
   * game the ratings the position projects take the blend; anything else
   * keeps its current value.
   */
  function Projected(tanh: real -> real, position: string, gameNum: int, rating: string,
                     current: Option<real>, prev: Option<real>, pre: Option<real>): Option<real>
  {
    var p := FillPreseason(position, rating, pre);
    if gameNum == 1 && (rating in SkaterRatings || rating == GoalieRating) then p
    else if gameNum > 1 && TanhCoef(position, rating).Some? then
      Blend(InseasonWeight(tanh, gameNum, TanhCoef(position, rating).value), prev, p)
    else current
  }

  function TeamSeasons(rows: seq<PlayerGame>): (ks: seq<(string, int)>)
    ensures |ks| == |rows|
    ensures forall i :: 0 <= i < |rows| ==> ks[i] == (rows[i].team, rows[i].season)
    decreases rows
  {
    if rows == [] then [] else [(rows[0].team, rows[0].season)] + TeamSeasons(rows[1..])
  }

  function PlayerDates(rows: seq<PlayerGame>): (ds: seq<int>)
    ensures |ds| == |rows|
    ensures forall i :: 0 <= i < |rows| ==> ds[i] == rows[i].dateInt
    decreases rows
  {
    if rows == [] then [] else [rows[0].dateInt] + PlayerDates(rows[1..])
  }

  /** PlayerGameNum: the dense rank of the row's date among its team's dates that season. */
  function PlayerGameNum(rows: seq<PlayerGame>, i: nat): (n: nat)
    requires i < |rows|
    ensures n >= 1
  {
    DenseRank(TeamSeasons(rows), PlayerDates(rows), i)
  }

  /** The projection of one rating on row i of the player table. */
  function PlayerProjection(tanh: real -> real, rows: seq<PlayerGame>, i: nat, rating: string): Option<real>
    requires i < |rows|
  {
    var r := rows[i];
    Projected(tanh, r.position, PlayerGameNum(rows, i), rating,
              Column(r.current, rating), Column(r.prevGames, rating), Column(r.preseason, rating))
  }

  /** A row on its team's first date of the season takes the preseason value (rookie default if missing). */
  lemma {:induction false} FirstGameIsPreseason(tanh: real -> real, rows: seq<PlayerGame>, i: nat, rating: string)
    requires i < |rows|
    requires forall j :: 0 <= j < |rows| && rows[j].team == rows[i].team && rows[j].season == rows[i].season ==>
      rows[i].dateInt <= rows[j].dateInt
    requires rating in SkaterRatings || rating == GoalieRating
    ensures PlayerProjection(tanh, rows, i, rating) ==
      FillPreseason(rows[i].position, rating, Column(rows[i].preseason, rating))
  {
    DenseRankOrder(TeamSeasons(rows), PlayerDates(rows), i, i);
  }

  /**
   * A row after its team's first date of the season, for a rating its
   * position projects, is present exactly when its in-season value is, and
   * then lies between the in-season and the (filled) preseason value.
   */
  lemma {:induction false} LaterGameBlends(tanh: real -> real, rows: seq<PlayerGame>, i: nat, j: nat, rating: string)
    requires TanhLike(tanh)
    requires i < |rows| && j < |rows|
    requires rows[j].team == rows[i].team && rows[j].season == rows[i].season && rows[j].dateInt < rows[i].dateInt
    requires Projects(rows[i].position, rating)
    ensures var v := PlayerProjection(tanh, rows, i, rating);
      var prev := Column(rows[i].prevGames, rating);
      var pre := FillPreseason(rows[i].position, rating, Column(rows[i].preseason, rating));
      && (v.Some? <==> prev.Some?)
      && (v.Some? ==> Between(v.value, prev.value, pre.value))
  {
    var keys, dates := TeamSeasons(rows), PlayerDates(rows);
    DenseRankOrder(keys, dates, i, j);
    var n := PlayerGameNum(rows, i);
    assert n > 1;
    var r := rows[i];
    var coef := TanhCoef(r.position, rating).value;
    WeightRange(tanh, n, n, coef);
    var prev := Column(r.prevGames, rating);
    var pre := FillPreseason(r.position, rating, Column(r.preseason, rating));
    if prev.Some? {
      BlendBetween(InseasonWeight(tanh, n, coef), prev.value, pre.value);
    }
  }

  /**
   * Teammates' rows share the game number of their date, and a later date
   * of the team's season never puts less weight on the in-season value.
   */
  lemma {:induction false} WeightGrowsThroughSeason(tanh: real -> real, rows: seq<PlayerGame>, i: nat, j: nat, coef: real)
    requires TanhLike(tanh) && coef > 0.0
    requires i < |rows| && j < |rows|
    requires rows[j].team == rows[i].team && rows[j].season == rows[i].season
    ensures rows[j].dateInt == rows[i].dateInt ==> PlayerGameNum(rows, j) == PlayerGameNum(rows, i)
    ensures rows[j].dateInt <= rows[i].dateInt ==>
      InseasonWeight(tanh, PlayerGameNum(rows, j), coef) <= InseasonWeight(tanh, PlayerGameNum(rows, i), coef)
  {
    DenseRankOrder(TeamSeasons(rows), PlayerDates(rows), i, j);
    if rows[j].dateInt <= rows[i].dateInt {
      WeightRange(tanh, PlayerGameNum(rows, j), PlayerGameNum(rows, i), coef);
    }
  }

  /** The first-game rule agrees with the blend: at game 1 the blend is the preseason value. */
  lemma FirstGameBlendAgrees(tanh: real -> real, coef: real, prev: real, pre: real)
    requires TanhLike(tanh) && coef > 0.0
    ensures Blend(InseasonWeight(tanh, 1, coef), Some(prev), Some(pre)) == Some(pre)
  {
    WeightRange(tanh, 1, 1, coef);
    BlendBetween(InseasonWeight(tanh, 1, coef), prev, pre);
  }

  // ---------------------------------------------------------------------
  // Team projections
  // ---------------------------------------------------------------------

  /** A team metric's preseason default (first weight of its config) and its tanh scale. */
  datatype TeamConfig = TeamConfig(default: real, coef: real)

  /**
   * The projection of one team metric: the preseason value is filled with
   * the config default; game 1 of the season takes it, a later game the
   * blend, and a row without a game rank keeps its current value.
   */
  function TeamProjected(tanh: real -> real, rank: Option<int>, cfg: TeamConfig,
                         current: Option<real>, prev: Option<real>, pre: Option<real>): Option<real>
    requires cfg.coef != 0.0
  {
    var p := if pre.None? then Some(cfg.default) else pre;
    if rank == Some(1) then p
    else if rank.Some? && rank.value > 1 then Blend(InseasonWeight(tanh, rank.value, cfg.coef), prev, p)
    else current
  }

  /**
   * Game 1 is never missing and is the preseason value or the default; a
   * later game is present exactly when the in-season value is and lies
   * between it and the filled preseason value; a row without a rank is
   * untouched.
   */
  lemma TeamProjectionCases(tanh: real -> real, rank: Option<int>, cfg: TeamConfig,
                            current: Option<real>, prev: Option<real>, pre: Option<real>)
    requires TanhLike(tanh) && cfg.coef > 0.0
    ensures var v := TeamProjected(tanh, rank, cfg, current, prev, pre);
      var p := if pre.Some? then pre.value else cfg.default;
      && (rank == Some(1) ==> v == Some(p))
      && (rank.Some? && rank.value > 1 ==> (v.Some? <==> prev.Some?))
      && (rank.Some? && rank.value > 1 && prev.Some? ==> Between(v.value, prev.value, p))
      && (rank.None? ==> v == current)
  {
    if rank.Some? && rank.value > 1 && prev.Some? {
      var p := if pre.Some? then pre.value else cfg.default;
      WeightRange(tanh, rank.value, rank.value, cfg.coef);
      BlendBetween(InseasonWeight(tanh, rank.value, cfg.coef), prev.value, p);
    }
  }

  // ---------------------------------------------------------------------
  // Elo differences
  // ---------------------------------------------------------------------

  function EloDiff(elo: real, oppElo: real): (d: real)
    ensures d + oppElo == elo
  {
    elo - oppElo
  }

  /** The 538-style difference: 50 points of home advantage each way, scaled by 1.25 in the playoffs. */
  function EloDiff538(elo: real, oppElo: real, home: int, playoffs: int): real
  {
    (elo - oppElo + (home as real) * 50.0 + ((home - 1) as real) * 50.0) * ((playoffs as real) * 0.25 + 1.0)
  }

  /**
   * With 0/1 flags the home side gets +50 and the away side -50 on top of
   * the plain difference, and a playoff game scales it by 1.25; the two sides
   * of a game get exact negatives.
   */
  lemma EloDiff538Sides(elo: real, oppElo: real, home: int, playoffs: int)
    requires home == 0 || home == 1
    requires playoffs == 0 || playoffs == 1
    ensures EloDiff538(elo, oppElo, home, playoffs) ==
      (EloDiff(elo, oppElo) + (if home == 1 then 50.0 else -50.0)) * (if playoffs == 1 then 1.25 else 1.0)
    ensures EloDiff538(elo, oppElo, home, playoffs) == -EloDiff538(oppElo, elo, 1 - home, playoffs)
    ensures EloDiff(elo, oppElo) == -EloDiff(oppElo, elo)
  {
  }

  // ---------------------------------------------------------------------
  // Matchup differences
  // ---------------------------------------------------------------------

  /** A team's summed player projections for a game (missing without a player row). */
  datatype TeamSums = TeamSums(gc5v5: Option<real>, gp5v5: Option<real>, gcPP: Option<real>, gpPK: Option<real>)

  datatype MatchupDiffs = MatchupDiffs(off5v5: Option<real>, def5v5: Option<real>, all5v5: Option<real>,
                                       pp: Option<real>, pk: Option<real>)

  function Minus(a: Option<real>, b: Option<real>): (r: Option<real>)
    ensures r.Some? <==> a.Some? && b.Some?
  {
    if a.Some? && b.Some? then Some(a.value - b.value) else None
  }

  function Plus(a: Option<real>, b: Option<real>): (r: Option<real>)
    ensures r.Some? <==> a.Some? && b.Some?
  {
    if a.Some? && b.Some? then Some(a.value + b.value) else None
  }

  /** Offence against the opponent's prevention, prevention against its offence, PP against PK. */
  function Diffs(own: TeamSums, opp: TeamSums): MatchupDiffs
  {
    var off := Minus(own.gc5v5, opp.gp5v5);
    var def := Minus(own.gp5v5, opp.gc5v5);
    MatchupDiffs(off, def, Plus(off, def), Minus(own.gcPP, opp.gpPK), Minus(own.gpPK, opp.gcPP))
  }

  /**
   * Seen from the opponent, every difference changes sign: its offence
   * difference is minus ours in defence, its power-play difference is minus
   * our penalty-kill difference, and the overall 5v5 difference flips.
   */
  lemma DiffsMirror(a: TeamSums, b: TeamSums)
    ensures Diffs(b, a).off5v5 == Negate(Diffs(a, b).def5v5)
    ensures Diffs(b, a).def5v5 == Negate(Diffs(a, b).off5v5)
    ensures Diffs(b, a).all5v5 == Negate(Diffs(a, b).all5v5)
    ensures Diffs(b, a).pp == Negate(Diffs(a, b).pk)
    ensures Diffs(b, a).pk == Negate(Diffs(a, b).pp)
  {
  }

  function Negate(a: Option<real>): Option<real>
  {
    if a.Some? then Some(-a.value) else None
  }

  // ---------------------------------------------------------------------
  // Lagged rolling means
  // ---------------------------------------------------------------------

  /** The lag windows used for the team features. */
  const Lags: seq<nat> := [8, 16, 32, 64]

  /** The values of the rows before n that belong to group g, oldest first. */
  function GroupValues<K(==)>(groups: seq<K>, vals: seq<Option<real>>, g: K, n: nat): (h: seq<Option<real>>)
    requires |groups| == |vals| && n <= |vals|
    ensures |h| <= n
  {
    if n == 0 then []
    else GroupValues(groups, vals, g, n - 1) + (if groups[n - 1] == g then [vals[n - 1]] else [])
  }

  /** The sum of values, missing when any value is. */
  function OptSum(w: seq<Option<real>>): (s: Option<real>)
    ensures s.Some? <==> forall k :: 0 <= k < |w| ==> w[k].Some?
    decreases w
  {
    if w == [] then Some(0.0)
    else
      var rest := OptSum(w[1..]);
      assert forall k :: 1 <= k < |w| ==> w[k] == w[1..][k - 1];
      if w[0].Some? && rest.Some? then Some(w[0].value + rest.value) else None
  }

  /** rolling(window=lag).mean() at the end of a history: needs lag values, all present. */
  function WindowMean(h: seq<Option<real>>, lag: nat): (m: Option<real>)
    requires lag >= 1
    ensures m.Some? <==> |h| >= lag && forall k :: |h| - lag <= k < |h| ==> h[k].Some?
    ensures m.Some? ==> m.value * lag as real == OptSum(h[|h| - lag..]).value
  {
    if |h| < lag then None
    else
      var w := h[|h| - lag..];
      var s := OptSum(w);
      assert forall k :: |h| - lag <= k < |h| ==> h[k] == w[k - (|h| - lag)];
      if s.None? then None
      else
        QuotientTimesCount(s.value, lag as real);
        Some(s.value / lag as real)
  }

  lemma QuotientTimesCount(a: real, b: real)
    requires b != 0.0
    ensures a / b * b == a
  {
  }

  /**
   * _add_lag: each row gets the rolling mean of its group's previous `lag`
   * values, shifted by one so that the row's own value is not included. It
   * is present exactly when the group has at least lag earlier rows and the
   * latest lag of them are present, and it then is their mean.
   */
  function LagMean<K(==)>(groups: seq<K>, vals: seq<Option<real>>, lag: nat, i: nat): (m: Option<real>)
    requires |groups| == |vals| && i < |vals| && lag >= 1
    ensures var h := GroupValues(groups, vals, groups[i], i);
      m.Some? <==> |h| >= lag && forall k :: |h| - lag <= k < |h| ==> h[k].Some?
    ensures var h := GroupValues(groups, vals, groups[i], i);
      m.Some? ==> m.value * lag as real == OptSum(h[|h| - lag..]).value
    ensures |GroupValues(groups, vals, groups[i], i)| < lag ==> m.None?
  {
    WindowMean(GroupValues(groups, vals, groups[i], i), lag)
  }

  /** Earlier rows of the group are exactly the earlier rows with that key, in order. */
  lemma {:induction false} GroupValuesMembers<K>(groups: seq<K>, vals: seq<Option<real>>, g: K, n: nat)
    requires |groups| == |vals| && n <= |vals|
    ensures |GroupValues(groups, vals, g, n)| == |set j | 0 <= j < n && groups[j] == g|
  {
    if n > 0 {
      GroupValuesMembers(groups, vals, g, n - 1);
      var below := set j | 0 <= j < n - 1 && groups[j] == g;
      var upto := set j | 0 <= j < n && groups[j] == g;
      if groups[n - 1] == g {
        assert upto == below + {n - 1};
      } else {
        assert upto == below;
      }
    }
  }

  /**
   * No look-ahead: a row's lag feature depends only on the rows before it;
   * its own value and every later value can change without changing it.
   */
  lemma {:induction false} LagNoLookAhead<K>(groups: seq<K>, vals: seq<Option<real>>, vals': seq<Option<real>>,
                                                  lag: nat, i: nat)
    requires |groups| == |vals| == |vals'| && i < |vals| && lag >= 1
    requires vals[..i] == vals'[..i]
    ensures LagMean(groups, vals, lag, i) == LagMean(groups, vals', lag, i)
  {
    GroupValuesPrefix(groups, vals, vals', groups[i], i);
  }

  lemma {:induction false} GroupValuesPrefix<K>(groups: seq<K>, vals: seq<Option<real>>, vals': seq<Option<real>>,
                                                     g: K, n: nat)
    requires |groups| == |vals| == |vals'| && n <= |vals|
    requires vals[..n] == vals'[..n]
    ensures GroupValues(groups, vals, g, n) == GroupValues(groups, vals', g, n)
  {
    if n > 0 {
      assert vals[..n - 1] == vals[..n][..n - 1];
      assert vals'[..n - 1] == vals'[..n][..n - 1];
      assert vals[n - 1] == vals[..n][n - 1];
      assert vals'[n - 1] == vals'[..n][n - 1];
      GroupValuesPrefix(groups, vals, vals', g, n - 1);
    }
  }

  /** A group whose last lag values all equal c gets the lag feature c. */
  lemma {:induction false} LagOfConstant<K>(groups: seq<K>, vals: seq<Option<real>>, lag: nat, i: nat, c: real)
    requires |groups| == |vals| && i < |vals| && lag >= 1
    requires var h := GroupValues(groups, vals, groups[i], i);
      |h| >= lag && forall k :: |h| - lag <= k < |h| ==> h[k] == Some(c)
    ensures LagMean(groups, vals, lag, i) == Some(c)
  {
    WindowOfConstant(GroupValues(groups, vals, groups[i], i), lag, c);
  }

  lemma {:induction false} WindowOfConstant(h: seq<Option<real>>, lag: nat, c: real)
    requires |h| >= lag >= 1 && forall k :: |h| - lag <= k < |h| ==> h[k] == Some(c)
    ensures WindowMean(h, lag) == Some(c)
  {
    var w := h[|h| - lag..];
    assert forall k :: 0 <= k < |w| ==> w[k] == h[k + (|h| - lag)];
    ConstantOptSum(w, c);
    var t := Times(c, lag);
    assert OptSum(w) == Some(t);
    var m := WindowMean(h, lag);
    assert m.value * lag as real == t;
    RepeatTimes(c, lag);
    CancelFactor(m.value, c, lag as real, t);
  }

  lemma {:induction false} ConstantOptSum(w: seq<Option<real>>, c: real)
    requires forall k :: 0 <= k < |w| ==> w[k] == Some(c)
    ensures OptSum(w) == Some(Times(c, |w|))
    decreases w
  {
    if w != [] {
      assert forall k :: 0 <= k < |w[1..]| ==> w[1..][k] == w[k + 1];
      ConstantOptSum(w[1..], c);
    }
  }

  /** c added n times. */
  function Times(c: real, n: nat): real
  {
    if n == 0 then 0.0 else c + Times(c, n - 1)
  }

  lemma {:induction false} RepeatTimes(c: real, n: nat)
    ensures Times(c, n) == c * n as real
  {
    if n > 0 {
      RepeatTimes(c, n - 1);
      assert c * n as real == c + c * (n - 1) as real;
    }
  }

  lemma CancelFactor(a: real, b: real, n: real, t: real)
    requires n != 0.0 && a * n == t && t == b * n
    ensures a == b
  {
    assert (a - b) * n == 0.0;
  }
}
