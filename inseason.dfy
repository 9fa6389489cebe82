/**
 * In-season ratings: for every game date after the first of the table, the
 * ratings a player or team has accumulated over the games strictly before
 * that date, stamped with the date and left-merged back onto the games.
 */
module Inseason {
  import opened Wrappers
  import opened Seqs

  // ---------------------------------------------------------------------
  // The dates the loops visit: sort_values().unique()[1:]
  // ---------------------------------------------------------------------

  predicate Increasing(s: seq<int>)
  {
    forall i, j :: 0 <= i < j < |s| ==> s[i] < s[j]
  }

  /** Inserts a date into a strictly increasing list of dates, once. */
  function Insert(x: int, s: seq<int>): (r: seq<int>)
    requires Increasing(s)
    ensures Increasing(r)
    ensures forall y :: y in r <==> y == x || y in s
    decreases s
  {
    if s == [] then [x]
    else if x < s[0] then [x] + s
    else if x == s[0] then s
    else
      var rest := Insert(x, s[1..]);
      AboveFirst(s);
      ConsIncreasing(s[0], rest);
      [s[0]] + rest
  }

  /** Every later element of increasing dates is above the first. */
  lemma AboveFirst(s: seq<int>)
    requires Increasing(s) && |s| > 0
    ensures forall y :: y in s[1..] ==> s[0] < y
  {
    forall y | y in s[1..]
      ensures s[0] < y
    {
      var j :| 0 <= j < |s[1..]| && s[1..][j] == y;
      assert s[j + 1] == y;
    }
  }

  /** A date below every element of increasing dates can be put in front. */
  lemma ConsIncreasing(a: int, t: seq<int>)
    requires Increasing(t) && forall y :: y in t ==> a < y
    ensures Increasing([a] + t)
  {
    forall i, j | 0 <= i < j < |[a] + t|
      ensures ([a] + t)[i] < ([a] + t)[j]
    {
      assert ([a] + t)[j] == t[j - 1];
      assert t[j - 1] in t;
      if i > 0 {
        assert ([a] + t)[i] == t[i - 1];
      }
    }
  }

  /** The distinct dates of a column in increasing order. */
  function SortedDates(ds: seq<int>): (r: seq<int>)
    ensures Increasing(r)
    ensures forall y :: y in r <==> y in ds
    decreases ds
  {
    if ds == [] then [] else Insert(ds[0], SortedDates(ds[1..]))
  }

  /**
   * The dates the loops visit: every distinct date but the earliest, that
   * is, exactly the dates with an earlier date in the table.
   */
  function LaterDates(ds: seq<int>): (r: seq<int>)
    ensures Increasing(r)
    ensures forall y :: y in r <==> y in ds && exists z :: z in ds && z < y
  {
    var all := SortedDates(ds);
    if all == [] then []
    else
      DropEarliest(all);
      all[1..]
  }

  /** Dropping the first of increasing dates keeps exactly those with an earlier date. */
  lemma DropEarliest(s: seq<int>)
    requires Increasing(s) && |s| > 0
    ensures Increasing(s[1..])
    ensures forall y :: y in s[1..] <==> y in s && exists z :: z in s && z < y
  {
    forall y | y in s[1..]
      ensures y in s && s[0] < y
    {
      var j :| 0 <= j < |s[1..]| && s[1..][j] == y;
      assert s[j + 1] == y;
    }
    assert s[0] in s;
    forall y, z | y in s && z in s && z < y
      ensures y in s[1..]
    {
      var j :| 0 <= j < |s| && s[j] == y;
      var k :| 0 <= k < |s| && s[k] == z;
      assert k < j;
      assert s[1..][j - 1] == y;
    }
  }

  // ---------------------------------------------------------------------
  // Teams: add_team_inseason_ratings
  // ---------------------------------------------------------------------

  /** One team-game: team, season, date and its per-game statistics by name. */
  datatype TeamGame = TeamGame(team: string, season: int, date: int, stats: map<string, Option<real>>)

  /** The statistics averaged over a team's earlier games, in output order. */
  const Metrics: seq<string> := [
    "Goals", "Shots", "ShotAttempts", "UnblockedShotAttempts", "xG", "xG_flurry", "Goals_5v5",
    "Shots_5v5", "ShotAttempts_5v5", "UnblockedShotAttempts_5v5", "xG_5v5", "xG_flurry_5v5",
    "GoalsAdjusted", "ShotsAdjusted", "ShotAttemptsAdjusted", "UnblockedShotAttemptsAdjusted",
    "xGAdjusted", "xG_flurryAdjusted", "GoalsAdjusted_5v5", "ShotsAdjusted_5v5",
    "ShotAttemptsAdjusted_5v5", "UnblockedShotAttemptsAdjusted_5v5", "xGAdjusted_5v5",
    "xG_flurryAdjusted_5v5", "Opp_Goals", "Opp_Shots", "Opp_ShotAttempts",
    "Opp_UnblockedShotAttempts", "Opp_xG", "Opp_xG_flurry", "Opp_Goals_5v5", "Opp_Shots_5v5",
    "Opp_ShotAttempts_5v5", "Opp_UnblockedShotAttempts_5v5", "Opp_xG_5v5", "Opp_xG_flurry_5v5",
    "Opp_GoalsAdjusted", "Opp_ShotsAdjusted", "Opp_ShotAttemptsAdjusted",
    "Opp_UnblockedShotAttemptsAdjusted", "Opp_xGAdjusted", "Opp_xG_flurryAdjusted",
    "Opp_GoalsAdjusted_5v5", "Opp_ShotsAdjusted_5v5", "Opp_ShotAttemptsAdjusted_5v5",
    "Opp_UnblockedShotAttemptsAdjusted_5v5", "Opp_xGAdjusted_5v5", "Opp_xG_flurryAdjusted_5v5"
  ]

  /**
   * The name of a metric's trailing mean: Opp_X becomes prevGames_XAgainst,
   * every other X becomes prevGames_X (the list of output names is spelled
   * out position by position and follows this rule).
   */
  function PrevName(metric: string): string
  {
    if |metric| >= 4 && metric[..4] == "Opp_" then "prevGames_" + metric[4..] + "Against"
    else "prevGames_" + metric
  }

  predicate EndsWithAgainst(s: string)
  {
    |s| >= 7 && s[|s| - 7..] == "Against"
  }

  /**
   * The renaming loses no column: metrics whose names do not already end in
   * "Against" get distinct output names.
   */
  lemma PrevNameInjective(a: string, b: string)
    requires !EndsWithAgainst(a) && !EndsWithAgainst(b)
    requires PrevName(a) == PrevName(b)
    ensures a == b
  {
    var oa := |a| >= 4 && a[..4] == "Opp_";
    var ob := |b| >= 4 && b[..4] == "Opp_";
    var ra := if oa then a[4..] + "Against" else a;
    var rb := if ob then b[4..] + "Against" else b;
    assert PrevName(a) == "prevGames_" + ra by {
      if oa {
        assert "prevGames_" + a[4..] + "Against" == "prevGames_" + (a[4..] + "Against");
      }
    }
    assert PrevName(b) == "prevGames_" + rb by {
      if ob {
        assert "prevGames_" + b[4..] + "Against" == "prevGames_" + (b[4..] + "Against");
      }
    }
    CancelPrefix("prevGames_", ra, rb);
    if oa && ob {
      CancelSuffix(a[4..], b[4..], "Against");
      assert a == "Opp_" + a[4..] && b == "Opp_" + b[4..];
    } else if oa {
      SuffixOf(a[4..], "Against");
    } else if ob {
      SuffixOf(b[4..], "Against");
    }
  }

  lemma CancelPrefix(p: string, x: string, y: string)
    requires p + x == p + y
    ensures x == y
  {
    assert x == (p + x)[|p|..];
    assert y == (p + y)[|p|..];
  }

  lemma CancelSuffix(x: string, y: string, q: string)
    requires x + q == y + q
    ensures x == y
  {
    assert x == (x + q)[..|x|];
    assert y == (y + q)[..|y|];
  }

  lemma SuffixOf(x: string, q: string)
    ensures (x + q)[|x + q| - |q|..] == q
  {
  }

  /** The values of a column over some games, in order. */
  function ColumnValues(games: seq<TeamGame>, metric: string): (vs: seq<Option<real>>)
    ensures |vs| == |games|
    ensures forall i :: 0 <= i < |games| ==> vs[i] == Column(games[i].stats, metric)
    decreases games
  {
    if games == [] then [] else [Column(games[0].stats, metric)] + ColumnValues(games[1..], metric)
  }

  /** The sum and number of the values present. */
  function PresentSum(vs: seq<Option<real>>): real
    decreases vs
  {
    if vs == [] then 0.0 else (if vs[0].Some? then vs[0].value else 0.0) + PresentSum(vs[1..])
  }

  function PresentCount(vs: seq<Option<real>>): (n: nat)
    ensures n == 0 <==> forall v :: v in vs ==> v.None?
    ensures n <= |vs|
    decreases vs
  {
    if vs == [] then 0
    else
      assert vs[0] in vs;
      assert forall v :: v in vs ==> v == vs[0] || v in vs[1..];
      assert forall v :: v in vs[1..] ==> v in vs;
      (if vs[0].Some? then 1 else 0) + PresentCount(vs[1..])
  }

  /** A group mean that skips missing values, missing when every value is (pandas `mean()`). */
  function MeanSkipMissing(vs: seq<Option<real>>): (m: Option<real>)
    ensures m.None? <==> forall v :: v in vs ==> v.None?
  {
    if PresentCount(vs) == 0 then None else Some(PresentSum(vs) / PresentCount(vs) as real)
  }

  /** The mean times the number of values present is their sum. */
  lemma {:induction false} MeanTimesCount(vs: seq<Option<real>>)
    requires exists v :: v in vs && v.Some?
    ensures MeanSkipMissing(vs).value * PresentCount(vs) as real == PresentSum(vs)
  {
    QuotientTimes(PresentSum(vs), PresentCount(vs) as real);
  }

  lemma QuotientTimes(a: real, b: real)
    requires b != 0.0
    ensures a / b * b == a
  {
  }

  /** Every value present and equal to c: the mean is c. */
  lemma {:induction false} MeanOfConstant(vs: seq<Option<real>>, c: real)
    requires |vs| > 0 && forall v :: v in vs ==> v == Some(c)
    ensures MeanSkipMissing(vs) == Some(c)
  {
    ConstantSum(vs, c);
    RepeatedIsProduct(c, |vs|);
    assert vs[0] in vs;
    var n := PresentCount(vs) as real;
    assert n == |vs| as real && PresentSum(vs) == c * n;
    QuotientOfMultiple(c, n);
    assert MeanSkipMissing(vs) == Some(PresentSum(vs) / n);
  }

  lemma {:induction false} ConstantSum(vs: seq<Option<real>>, c: real)
    requires forall v :: v in vs ==> v == Some(c)
    ensures PresentCount(vs) == |vs|
    ensures PresentSum(vs) == Repeated(c, |vs|)
    decreases vs
  {
    if vs != [] {
      assert vs[0] in vs;
      assert forall v :: v in vs[1..] ==> v in vs;
      ConstantSum(vs[1..], c);
    }
  }

  /** c added n times. */
  function Repeated(c: real, n: nat): real
  {
    if n == 0 then 0.0 else c + Repeated(c, n - 1)
  }

  lemma {:induction false} RepeatedIsProduct(c: real, n: nat)
    ensures Repeated(c, n) == c * n as real
  {
    if n > 0 {
      RepeatedIsProduct(c, n - 1);
      assert c * n as real == c + c * (n - 1) as real;
    }
  }

  lemma QuotientOfMultiple(c: real, n: real)
    requires n != 0.0
    ensures c * n / n == c
  {
  }

  /** The means of the listed columns over some games. */
  function MeansOf(games: seq<TeamGame>, metrics: seq<string>): (ms: seq<Option<real>>)
    ensures |ms| == |metrics|
    ensures forall k :: 0 <= k < |metrics| ==> ms[k] == MeanSkipMissing(ColumnValues(games, metrics[k]))
    decreases metrics
  {
    if metrics == [] then [] else [MeanSkipMissing(ColumnValues(games, metrics[0]))] + MeansOf(games, metrics[1..])
  }

  /** The latest season of the games played on a date (`Season.max()`); none without a game. */
  function SeasonOn(rows: seq<TeamGame>, d: int): (s: Option<int>)
    ensures s.None? <==> forall r :: r in rows ==> r.date != d
    ensures s.Some? ==> exists r :: r in rows && r.date == d && r.season == s.value
    ensures s.Some? ==> forall r :: r in rows && r.date == d ==> r.season <= s.value
    decreases rows
  {
    if rows == [] then None
    else
      var rest := SeasonOn(rows[1..], d);
      assert forall r :: r in rows[1..] ==> r in rows;
      if rows[0].date != d then rest
      else if rest.None? || rest.value < rows[0].season then Some(rows[0].season)
      else rest
  }

  predicate PlaysOn(rows: seq<TeamGame>, d: int, team: string)
  {
    exists r :: r in rows && r.date == d && r.team == team
  }

  /** The games that count for date d: earlier, same season, by a team playing on d. */
  function PriorGames(rows: seq<TeamGame>, all: seq<TeamGame>, d: int, season: int): (r: seq<TeamGame>)
    ensures forall x :: x in r <==> x in rows && x.date < d && x.season == season && PlaysOn(all, d, x.team)
    decreases rows
  {
    if rows == [] then []
    else
      var rest := PriorGames(rows[1..], all, d, season);
      var x := rows[0];
      if x.date < d && x.season == season && PlaysOn(all, d, x.team) then [x] + rest else rest
  }

  /** A team's games of a season strictly before a date. */
  function TeamHistory(rows: seq<TeamGame>, team: string, season: int, d: int): (r: seq<TeamGame>)
    ensures forall x :: x in r <==> x in rows && x.team == team && x.season == season && x.date < d
    decreases rows
  {
    if rows == [] then []
    else
      var rest := TeamHistory(rows[1..], team, season, d);
      var x := rows[0];
      if x.team == team && x.season == season && x.date < d then [x] + rest else rest
  }

  function TeamsOf(games: seq<TeamGame>): (ts: seq<string>)
    ensures forall t :: t in ts <==> exists g :: g in games && g.team == t
    decreases games
  {
    if games == [] then [] else [games[0].team] + TeamsOf(games[1..])
  }

  /** One row of the in-season table: a team's trailing means at a date. */
  datatype PrevGames = PrevGames(team: string, season: int, date: int, prev: seq<Option<real>>)

  /** The group-by-(Team, Season) means of the prior games, one row per team, stamped with d. */
  function MeansBlock(teams: seq<string>, prior: seq<TeamGame>, season: int, d: int, metrics: seq<string>): (b: seq<PrevGames>)
    ensures forall x :: x in b ==> x.date == d && x.season == season && x.team in teams
    decreases teams
  {
    if teams == [] then []
    else
      var row := PrevGames(teams[0], season, d, MeansOf(TeamHistory(prior, teams[0], season, d), metrics));
      [row] + MeansBlock(teams[1..], prior, season, d, metrics)
  }

  /** The in-season rows computed for one date. */
  function DateBlock(rows: seq<TeamGame>, d: int, metrics: seq<string>): seq<PrevGames>
  {
    var s := SeasonOn(rows, d);
    if s.None? then []
    else
      var prior := PriorGames(rows, rows, d, s.value);
      MeansBlock(Distinct(TeamsOf(prior)), prior, s.value, d, metrics)
  }

  /** The blocks of the listed dates, concatenated in order. */
  function BlocksOf(rows: seq<TeamGame>, dates: seq<int>, metrics: seq<string>): seq<PrevGames>
    decreases |dates|
  {
    if dates == [] then []
    else BlocksOf(rows, dates[..|dates| - 1], metrics) + DateBlock(rows, dates[|dates| - 1], metrics)
  }

  /** The date column of a table whose date is read by `dateOf`. */
  function DatesIn<T(!new)>(rows: seq<T>, dateOf: T -> int): (ds: seq<int>)
    ensures forall d :: d in ds <==> exists r :: r in rows && dateOf(r) == d
    decreases rows
  {
    if rows == [] then [] else [dateOf(rows[0])] + DatesIn(rows[1..], dateOf)
  }

  function TeamGameDate(r: TeamGame): int { r.date }

  /** The dates of the team games. */
  function DatesOf(rows: seq<TeamGame>): seq<int>
  {
    DatesIn(rows, TeamGameDate)
  }

  /** The trailing means a left merge on (Team, Season, Date) finds; none without a match. */
  function LookupPrev(table: seq<PrevGames>, team: string, season: int, d: int): (v: Option<seq<Option<real>>>)
    ensures (forall x :: x in table ==> !(x.team == team && x.season == season && x.date == d)) ==> v.None?
    decreases table
  {
    if table == [] then None
    else if table[0].team == team && table[0].season == season && table[0].date == d then Some(table[0].prev)
    else LookupPrev(table[1..], team, season, d)
  }

  /** A team-game with its trailing means; missing when no in-season row matched. */
  datatype TeamGameWithPrev = TeamGameWithPrev(game: TeamGame, prev: Option<seq<Option<real>>>)

  /** The left merge of the in-season table onto the games. */
  function MergePrev(rows: seq<TeamGame>, table: seq<PrevGames>): (out: seq<TeamGameWithPrev>)
    ensures |out| == |rows|
    ensures forall i :: 0 <= i < |rows| ==>
      out[i] == TeamGameWithPrev(rows[i], LookupPrev(table, rows[i].team, rows[i].season, rows[i].date))
    decreases rows
  {
    if rows == [] then []
    else [TeamGameWithPrev(rows[0], LookupPrev(table, rows[0].team, rows[0].season, rows[0].date))] + MergePrev(rows[1..], table)
  }

  /**
   * add_team_inseason_ratings: loop over the dates after the first,
   * appending each date's block, then left-merge the table onto the games.
   */
  method AddTeamInseasonRatings(rows: seq<TeamGame>) returns (merged: seq<TeamGameWithPrev>)
    ensures merged == MergePrev(rows, BlocksOf(rows, LaterDates(DatesOf(rows)), Metrics))
  {
    var table := TrailingMeansTable(rows, Metrics);
    merged := MergePrev(rows, table);
  }

  /** The date loop: the blocks of the dates after the first, appended in date order. */
  method TrailingMeansTable(rows: seq<TeamGame>, metrics: seq<string>) returns (table: seq<PrevGames>)
    ensures table == BlocksOf(rows, LaterDates(DatesOf(rows)), metrics)
  {
    var dates := LaterDates(DatesOf(rows));
    table := [];
    var k := 0;
    while k < |dates|
      invariant 0 <= k <= |dates|
      invariant table == BlocksOf(rows, dates[..k], metrics)
    {
      table := AppendBlock(rows, dates, k, metrics, table);
      k := k + 1;
    }
    assert dates[..|dates|] == dates;
  }

  /** One pass of the date loop: the date's block appended to the table built so far. */
  method AppendBlock(rows: seq<TeamGame>, dates: seq<int>, k: nat, metrics: seq<string>, table: seq<PrevGames>)
    returns (next: seq<PrevGames>)
    requires k < |dates| && table == BlocksOf(rows, dates[..k], metrics)
    ensures next == BlocksOf(rows, dates[..k + 1], metrics)
  {
    var block := DateBlock(rows, dates[k], metrics);
    assert dates[..k + 1][..k] == dates[..k];
    next := table + block;
  }

  /**
   * The trailing mean: a game gets in-season values exactly when it is in
   * the latest season played on its date and its team has an earlier game
   * that season; the values are then the means, skipping missing values,
   * over those earlier games only. In particular a game on the first date,
   * or a team's first game of a season, stays missing.
   */
  lemma {:induction false} TrailingMean(rows: seq<TeamGame>, metrics: seq<string>, i: nat)
    requires i < |rows|
    ensures var r := rows[i];
      var prev := MergePrev(rows, BlocksOf(rows, LaterDates(DatesOf(rows)), metrics))[i].prev;
      var history := TeamHistory(rows, r.team, r.season, r.date);
      && (prev.Some? <==> SeasonOn(rows, r.date) == Some(r.season) && |history| > 0)
      && (prev.Some? ==> prev.value == MeansOf(history, metrics))
  {
    var r := rows[i];
    var d := r.date;
    var dates := LaterDates(DatesOf(rows));
    var table := BlocksOf(rows, dates, metrics);
    var history := TeamHistory(rows, r.team, r.season, d);
    assert MergePrev(rows, table)[i].prev == LookupPrev(table, r.team, r.season, d);
    assert r in rows;
    LookupBlocks(rows, dates, metrics, r.team, r.season, d);
    if |history| > 0 {
      assert history[0] in history;
      DateVisited(rows, r, history[0]);
      LookupDateBlock(rows, d, metrics, r.team, r.season);
    } else if d in dates {
      LookupDateBlock(rows, d, metrics, r.team, r.season);
    }
  }

  /** A date with an earlier game is one the loop visits. */
  lemma DateVisited(rows: seq<TeamGame>, r: TeamGame, g: TeamGame)
    requires r in rows && g in rows && g.date < r.date
    ensures r.date in LaterDates(DatesOf(rows))
  {
    var ds := DatesOf(rows);
    assert r.date in ds && g.date in ds;
  }

  /** Looking up a date in the concatenated blocks finds that date's block, and nothing for other dates. */
  lemma {:induction false} LookupBlocks(rows: seq<TeamGame>, dates: seq<int>, metrics: seq<string>, team: string, season: int, d: int)
    requires Increasing(dates)
    ensures d in dates ==> LookupPrev(BlocksOf(rows, dates, metrics), team, season, d) == LookupPrev(DateBlock(rows, d, metrics), team, season, d)
    ensures d !in dates ==> LookupPrev(BlocksOf(rows, dates, metrics), team, season, d).None?
    decreases |dates|
  {
    if dates == [] {
      assert BlocksOf(rows, dates, metrics) == [];
    } else {
      var n := |dates| - 1;
      var init := dates[..n];
      var last := dates[n];
      var a := BlocksOf(rows, init, metrics);
      var b := DateBlock(rows, last, metrics);
      assert BlocksOf(rows, dates, metrics) == a + b;
      DropLast(dates, d);
      LookupBlocks(rows, init, metrics, team, season, d);
      BlockDates(rows, last, metrics);
      LookupAfter(a, b, team, season, d, last);
    }
  }

  /** The dates before the last of an increasing list are increasing, miss the last, and hold every other date of the list. */
  lemma DropLast(dates: seq<int>, d: int)
    requires Increasing(dates) && dates != []
    ensures Increasing(dates[..|dates| - 1])
    ensures dates[|dates| - 1] !in dates[..|dates| - 1]
    ensures d != dates[|dates| - 1] ==> (d in dates <==> d in dates[..|dates| - 1])
  {
    var n := |dates| - 1;
    forall j | 0 <= j < n ensures dates[..n][j] != dates[n] {
      assert dates[j] < dates[n];
    }
    assert dates == dates[..n] + [dates[n]];
  }

  /** Looking up a table with a block of one date appended: other dates see the table, that date falls through to the block. */
  lemma LookupAfter(a: seq<PrevGames>, b: seq<PrevGames>, team: string, season: int, d: int, last: int)
    requires forall x :: x in b ==> x.date == last
    ensures d != last ==> LookupPrev(a + b, team, season, d) == LookupPrev(a, team, season, d)
    ensures LookupPrev(a, team, season, d).None? ==> LookupPrev(a + b, team, season, d) == LookupPrev(b, team, season, d)
  {
    LookupConcat(a, b, team, season, d);
  }

  lemma {:induction false} BlockDates(rows: seq<TeamGame>, d: int, metrics: seq<string>)
    ensures forall x :: x in DateBlock(rows, d, metrics) ==> x.date == d
  {
  }

  lemma {:induction false} LookupConcat(a: seq<PrevGames>, b: seq<PrevGames>, team: string, season: int, d: int)
    ensures LookupPrev(a + b, team, season, d) ==
      if LookupPrev(a, team, season, d).Some? then LookupPrev(a, team, season, d) else LookupPrev(b, team, season, d)
    decreases a
  {
    if a == [] {
      assert a + b == b;
    } else {
      assert (a + b)[1..] == a[1..] + b;
      LookupConcat(a[1..], b, team, season, d);
    }
  }

  /** Within a date's block, a team playing that date finds its means exactly when it has prior games. */
  lemma {:induction false} LookupDateBlock(rows: seq<TeamGame>, d: int, metrics: seq<string>, team: string, season: int)
    requires PlaysOn(rows, d, team)
    ensures var history := TeamHistory(rows, team, season, d);
      LookupPrev(DateBlock(rows, d, metrics), team, season, d) ==
        if SeasonOn(rows, d) == Some(season) && |history| > 0 then Some(MeansOf(history, metrics)) else None
  {
    var s := SeasonOn(rows, d);
    assert s.Some?;
    var prior := PriorGames(rows, rows, d, s.value);
    var teams := Distinct(TeamsOf(prior));
    assert DateBlock(rows, d, metrics) == MeansBlock(teams, prior, s.value, d, metrics);
    LookupMeansBlock(teams, prior, s.value, d, metrics, team, season);
    HistoryOfPrior(rows, rows, d, s.value, team);
    TeamInPrior(rows, d, s.value, team);
  }

  /** A team playing on d has prior games exactly when it has an earlier game that season. */
  lemma TeamInPrior(rows: seq<TeamGame>, d: int, s: int, team: string)
    requires PlaysOn(rows, d, team)
    ensures team in Distinct(TeamsOf(PriorGames(rows, rows, d, s))) <==> |TeamHistory(rows, team, s, d)| > 0
  {
    var prior := PriorGames(rows, rows, d, s);
    var history := TeamHistory(rows, team, s, d);
    if |history| > 0 {
      assert history[0] in history;
      assert history[0] in prior;
    }
  }

  lemma {:induction false} LookupMeansBlock(teams: seq<string>, prior: seq<TeamGame>, s: int, d: int, metrics: seq<string>, team: string, season: int)
    ensures LookupPrev(MeansBlock(teams, prior, s, d, metrics), team, season, d) ==
      if season == s && team in teams then Some(MeansOf(TeamHistory(prior, team, s, d), metrics)) else None
    decreases teams
  {
    if teams != [] {
      LookupMeansBlock(teams[1..], prior, s, d, metrics, team, season);
    }
  }

  /** Restricting the prior games to one team gives that team's history, for a team playing on d. */
  lemma {:induction false} HistoryOfPrior(rows: seq<TeamGame>, all: seq<TeamGame>, d: int, s: int, team: string)
    requires PlaysOn(all, d, team)
    ensures TeamHistory(PriorGames(rows, all, d, s), team, s, d) == TeamHistory(rows, team, s, d)
    decreases rows
  {
    if rows != [] {
      HistoryOfPrior(rows[1..], all, d, s, team);
    }
  }

  /** Games on or after a date never change the in-season values at that date. */
  lemma {:induction false} NoLookAhead(rows: seq<TeamGame>, later: seq<TeamGame>, team: string, season: int, d: int)
    requires forall x :: x in later ==> x.date > d
    ensures TeamHistory(rows + later, team, season, d) == TeamHistory(rows, team, season, d)
    ensures SeasonOn(rows + later, d) == SeasonOn(rows, d)
    decreases rows
  {
    if rows == [] {
      NoLaterHistory(later, team, season, d);
      NoLaterSeason(later, d);
      assert rows + later == later;
    } else {
      assert (rows + later)[1..] == rows[1..] + later;
      NoLookAhead(rows[1..], later, team, season, d);
    }
  }

  lemma {:induction false} NoLaterHistory(later: seq<TeamGame>, team: string, season: int, d: int)
    requires forall x :: x in later ==> x.date > d
    ensures TeamHistory(later, team, season, d) == []
    decreases later
  {
    if later != [] {
      assert later[0] in later;
      NoLaterHistory(later[1..], team, season, d);
    }
  }

  lemma {:induction false} NoLaterSeason(later: seq<TeamGame>, d: int)
    requires forall x :: x in later ==> x.date > d
    ensures SeasonOn(later, d).None?
  {
  }

  // ---------------------------------------------------------------------
  // Players: the date loop of add_player_inseason_ratings
  // ---------------------------------------------------------------------

  /** A player-game row: its date and game id; the statistics stay opaque to the loop. */
  datatype PlayerGame<G> = PlayerGame(date: int, gameId: int, stats: G)

  /** A shift-overlap row: the game it belongs to; the rest stays opaque to the loop. */
  datatype OverlapRow<O> = OverlapRow(gameId: int, overlap: O)

  /** The ratings computed for one date, stamped with it. */
  datatype Snapshot<S> = Snapshot(date: int, ratings: S)

  /** The games strictly before a date, in order (`xGs.loc[xGs['Date'] < i]`). */
  function GamesBefore<G(!new)>(rows: seq<PlayerGame<G>>, d: int): (r: seq<PlayerGame<G>>)
    ensures forall x :: x in r <==> x in rows && x.date < d
    decreases rows
  {
    if rows == [] then []
    else if rows[0].date < d then [rows[0]] + GamesBefore(rows[1..], d)
    else GamesBefore(rows[1..], d)
  }

  function GameIds<G(!new)>(rows: seq<PlayerGame<G>>): (ids: set<int>)
    ensures forall g :: g in ids <==> exists x :: x in rows && x.gameId == g
    decreases rows
  {
    if rows == [] then {} else {rows[0].gameId} + GameIds(rows[1..])
  }

  /** The overlap rows of the listed games (`ratings.loc[ratings['Game_Id'].isin(...)]`). */
  function OverlapsOf<O(!new)>(overlaps: seq<OverlapRow<O>>, games: set<int>): (r: seq<OverlapRow<O>>)
    ensures forall x :: x in r <==> x in overlaps && x.gameId in games
    decreases overlaps
  {
    if overlaps == [] then []
    else if overlaps[0].gameId in games then [overlaps[0]] + OverlapsOf(overlaps[1..], games)
    else OverlapsOf(overlaps[1..], games)
  }

  /**
   * The ratings of one date: `compute` (the per-date metric, exposure,
   * decomposition, goalie and penalty formulas) applied to the earlier
   * games and their overlaps.
   */
  function PlayerSnapshot<G(!new), O(!new), S>(rows: seq<PlayerGame<G>>, overlaps: seq<OverlapRow<O>>,
                                   compute: (seq<PlayerGame<G>>, seq<OverlapRow<O>>) -> S, d: int): S
  {
    var prior := GamesBefore(rows, d);
    compute(prior, OverlapsOf(overlaps, GameIds(prior)))
  }

  function PlayerGameDate<G>(r: PlayerGame<G>): int { r.date }

  /** The dates of the player games. */
  function PlayerDates<G(!new)>(rows: seq<PlayerGame<G>>): seq<int>
  {
    DatesIn(rows, PlayerGameDate)
  }

  function SnapshotsOf<G(!new), O(!new), S>(rows: seq<PlayerGame<G>>, overlaps: seq<OverlapRow<O>>,
                                compute: (seq<PlayerGame<G>>, seq<OverlapRow<O>>) -> S, dates: seq<int>): (out: seq<Snapshot<S>>)
    ensures |out| == |dates|
    ensures forall k :: 0 <= k < |dates| ==> out[k] == Snapshot(dates[k], PlayerSnapshot(rows, overlaps, compute, dates[k]))
    decreases |dates|
  {
    if dates == [] then []
    else
      var n := |dates| - 1;
      SnapshotsOf(rows, overlaps, compute, dates[..n]) + [Snapshot(dates[n], PlayerSnapshot(rows, overlaps, compute, dates[n]))]
  }

  /**
   * The date loop of add_player_inseason_ratings: for each date after the
   * first, the ratings over the earlier games, stamped with the date.
   */
  method PlayerInseasonSnapshots<G(!new), O(!new), S>(rows: seq<PlayerGame<G>>, overlaps: seq<OverlapRow<O>>,
                                          compute: (seq<PlayerGame<G>>, seq<OverlapRow<O>>) -> S)
    returns (out: seq<Snapshot<S>>)
    ensures out == SnapshotsOf(rows, overlaps, compute, LaterDates(PlayerDates(rows)))
  {
    var dates := LaterDates(PlayerDates(rows));
    out := [];
    var k := 0;
    while k < |dates|
      invariant 0 <= k <= |dates|
      invariant out == SnapshotsOf(rows, overlaps, compute, dates[..k])
    {
      var prior := GamesBefore(rows, dates[k]);
      var ratings := compute(prior, OverlapsOf(overlaps, GameIds(prior)));
      SnapshotsStep(rows, overlaps, compute, dates, k);
      out := out + [Snapshot(dates[k], ratings)];
      k := k + 1;
    }
    assert dates[..|dates|] == dates;
  }

  /** One more date appends its snapshot. */
  lemma SnapshotsStep<G(!new), O(!new), S>(rows: seq<PlayerGame<G>>, overlaps: seq<OverlapRow<O>>,
                                          compute: (seq<PlayerGame<G>>, seq<OverlapRow<O>>) -> S, dates: seq<int>, k: nat)
    requires k < |dates|
    ensures SnapshotsOf(rows, overlaps, compute, dates[..k + 1]) ==
      SnapshotsOf(rows, overlaps, compute, dates[..k]) + [Snapshot(dates[k], PlayerSnapshot(rows, overlaps, compute, dates[k]))]
  {
    assert dates[..k + 1][..k] == dates[..k];
  }

  /**
   * A snapshot sees only the past: games dated on or after the snapshot's
   * date, and their overlap rows, do not change it.
   */
  lemma {:induction false} SnapshotSeesOnlyEarlierGames<G(!new), O(!new), S>(rows: seq<PlayerGame<G>>, later: seq<PlayerGame<G>>,
      overlaps: seq<OverlapRow<O>>, compute: (seq<PlayerGame<G>>, seq<OverlapRow<O>>) -> S, d: int)
    requires forall x :: x in later ==> x.date >= d
    ensures PlayerSnapshot(rows + later, overlaps, compute, d) == PlayerSnapshot(rows, overlaps, compute, d)
  {
    EarlierGamesOnly(rows, later, d);
  }

  lemma {:induction false} EarlierGamesOnly<G(!new)>(rows: seq<PlayerGame<G>>, later: seq<PlayerGame<G>>, d: int)
    requires forall x :: x in later ==> x.date >= d
    ensures GamesBefore(rows + later, d) == GamesBefore(rows, d)
    decreases rows
  {
    if rows == [] {
      assert rows + later == later;
      NoEarlierGames(later, d);
    } else {
      assert (rows + later)[1..] == rows[1..] + later;
      EarlierGamesOnly(rows[1..], later, d);
    }
  }

  lemma {:induction false} NoEarlierGames<G(!new)>(later: seq<PlayerGame<G>>, d: int)
    requires forall x :: x in later ==> x.date >= d
    ensures GamesBefore(later, d) == []
    decreases later
  {
    if later != [] {
      assert later[0] in later;
      NoEarlierGames(later[1..], d);
    }
  }

  /** The overlap rows a snapshot uses all belong to games before its date. */
  lemma {:induction false} SnapshotOverlapsAreEarlier<G(!new), O(!new)>(rows: seq<PlayerGame<G>>, overlaps: seq<OverlapRow<O>>, d: int)
    ensures forall o :: o in OverlapsOf(overlaps, GameIds(GamesBefore(rows, d))) ==>
      exists g :: g in rows && g.gameId == o.gameId && g.date < d
  {
  }
}
