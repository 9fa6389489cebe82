/**
 * Attribution of play-by-play events to players and teams
 * (aggregate_player_data after the overlap engine, and aggregate_team_data):
 * per-event count flags by game state, the score/venue adjustment key and the
 * adjusted values, individual credit to the shooter, assister or penalty
 * drawer, on-ice credit through the twelve roster slots, position by slot
 * vote, and the playoff and win flags.
 */
module Attribution {
  import opened Wrappers
  import opened Seqs
  import opened Strength

  datatype Player = Player(name: string, id: int)

  /**
   * One play-by-play event. `strength` is read from the home team's side;
   * `homeSlots` and `awaySlots` hold the six roster slots of each side;
   * `xg` and `xgFlurry` are the expected-goal columns, missing off shots;
   * `rebound` says the shot's category is Rebound.
   */
  datatype Play = Play(
    gameId: int, date: int, season: int, period: int, seconds: int,
    event: string, penaltyType: Option<string>, strength: string,
    evTeam: string, homeTeam: string, awayTeam: string,
    emptyNet: bool, homeScore: int, awayScore: int,
    homeGoaliePresent: bool, awayGoaliePresent: bool,
    p1: Option<Player>, p2: Option<Player>, p3: Option<Player>,
    homeSlots: seq<Option<Player>>, awaySlots: seq<Option<Player>>,
    xg: Option<real>, xgFlurry: Option<real>, rebound: bool)

  /** The game state from the acting team's side: flipped for away-team events. */
  function ActingStrength(e: Play): string
  {
    ForActingTeam(e.strength, e.evTeam == e.awayTeam)
  }

  // ---------------------------------------------------------------------
  // Count flags.

  /** Goal, shot on goal, shot attempt and unblocked attempt flags of one event in one context. */
  datatype Tally = Tally(goals: int, shots: int, attempts: int, unblocked: int)

  function Flag(b: bool): int { if b then 1 else 0 }

  /**
   * The flags of an event counted in a context (`inContext` says whether the
   * event belongs to it): goals are shots on goal, shots on goal are unblocked
   * attempts, and unblocked attempts are the attempts that were not blocked.
   */
  function TallyIn(event: string, inContext: bool): (t: Tally)
    ensures 0 <= t.goals <= t.shots <= t.unblocked <= t.attempts <= 1
    ensures t.unblocked + Flag(inContext && event == "BLOCK") == t.attempts
    ensures t.attempts == 1 <==> inContext && event in {"SHOT", "MISS", "GOAL", "BLOCK"}
    ensures t.goals == 1 <==> inContext && event == "GOAL"
  {
    Tally(
      Flag(inContext && event == "GOAL"),
      Flag(inContext && event in {"SHOT", "GOAL"}),
      Flag(inContext && event in {"SHOT", "MISS", "GOAL", "BLOCK"}),
      Flag(inContext && event in {"SHOT", "MISS", "GOAL"}))
  }

  /** The penalty-kill flags as written: the unblocked-attempt flag also counts BLOCK. */
  function TallyPenaltyKillAsWritten(event: string, inContext: bool): Tally
  {
    Tally(
      Flag(inContext && event == "GOAL"),
      Flag(inContext && event in {"SHOT", "GOAL"}),
      Flag(inContext && event in {"SHOT", "MISS", "GOAL", "BLOCK"}),
      Flag(inContext && event in {"SHOT", "MISS", "GOAL", "BLOCK"}))
  }

  /**
   * As written, a blocked attempt on the penalty kill counts as an unblocked
   * attempt, so penalty-kill unblocked attempts always equal attempts; the
   * corrected flags count it as an attempt only.
   */
  lemma PenaltyKillUnblockedCountsBlocks()
    ensures TallyPenaltyKillAsWritten("BLOCK", true).unblocked == 1
    ensures TallyIn("BLOCK", true).unblocked == 0 && TallyIn("BLOCK", true).attempts == 1
    ensures forall ev, c :: TallyPenaltyKillAsWritten(ev, c).unblocked == TallyPenaltyKillAsWritten(ev, c).attempts
  {
  }

  /** Whether the acting team is on the power play / penalty kill. */
  predicate ActingPowerPlay(e: Play) { ActingStrength(e) in PowerPlay }
  predicate ActingPenaltyKill(e: Play) { ActingStrength(e) in PenaltyKill }

  /** Game-state buckets of the per-event flags. */
  datatype Bucket = All | Even | PP | PK

  /**
   * The flags of an event in a bucket: all situations but the shootout; 5-on-5
   * not into an empty net; the acting team's power play; its penalty kill.
   */
  function TallyOf(e: Play, b: Bucket): Tally
  {
    match b
    case All => TallyIn(e.event, e.strength != Shootout)
    case Even => TallyIn(e.event, e.strength == EvenFive && !e.emptyNet)
    case PP => TallyIn(e.event, ActingPowerPlay(e))
    case PK => TallyIn(e.event, ActingPenaltyKill(e))
  }

  /** Shootout goals and non-fighting penalties of an event. */
  function ShootoutGoal(e: Play): int { Flag(e.event == "GOAL" && e.strength == Shootout) }

  /** `sub` occurs in `s` (a substring test). */
  predicate Contains(s: string, sub: string)
    decreases s
  {
    |sub| <= |s| && (s[..|sub|] == sub || Contains(s[1..], sub))
  }

  /** A penalty counts unless its type mentions a fight; a missing type counts. */
  function Penalty(e: Play): int
  {
    Flag(e.event == "PENL" && !(e.penaltyType.Some? && Contains(e.penaltyType.value, "Fight")))
  }

  /**
   * The state buckets are exclusive and each lies inside "all situations": an
   * event is counted in at most one of 5-on-5, power play and penalty kill,
   * never in both the shootout and the regular goals, and a bucket flag never
   * exceeds the all-situations flag.
   */
  lemma BucketsWithinAll(e: Play, b: Bucket)
    ensures TallyOf(e, b).attempts <= TallyOf(e, All).attempts
    ensures TallyOf(e, b).goals <= TallyOf(e, All).goals
    ensures TallyOf(e, Even).attempts + TallyOf(e, PP).attempts + TallyOf(e, PK).attempts <= TallyOf(e, All).attempts
    ensures ShootoutGoal(e) + TallyOf(e, All).goals == Flag(e.event == "GOAL")
  {
    var flip := e.evTeam == e.awayTeam;
    var a := ActingStrength(e);
    if a in PowerPlay || a in PenaltyKill {
      FlipOfKnownState(a);
      if flip {
        ReverseInvolution(e.strength);
        assert e.strength == Reverse(a);
      }
      assert e.strength != Shootout && e.strength != EvenFive;
    }
  }

  // ---------------------------------------------------------------------
  // Score and venue adjustment.

  /** Key of the adjustment table: state, venue of the acting team, capped score difference, period class. */
  datatype AdjKey = AdjKey(strength: string, home: bool, scoreDiff: int, period: int)

  function Clamp(x: int, lo: int, hi: int): int
  {
    if x > hi then hi else if x < lo then lo else x
  }

  /**
   * The adjustment key of an event: power-play states are pooled as "PP" and
   * empty-net events as "EN"; periods past 4 count as 4 and period 2 as 1, and
   * outside 5-on-5 every period but the third counts as 1; the home-minus-away
   * score difference is capped at 3 either way, and at 1 outside 5-on-5;
   * at 4-on-4 and 3-on-3 with a tied score the period counts as 1.
   */
  function AdjustmentKey(e: Play): AdjKey
  {
    var acting := ActingStrength(e);
    var s := if e.emptyNet then "EN" else if acting in PowerPlay then "PP" else acting;
    var p0 := if e.period > 4 then 4 else e.period;
    var p1 := if p0 == 2 then 1 else p0;
    var p2 := if p1 != 3 && acting != EvenFive then 1 else p1;
    var d0 := Clamp(e.homeScore - e.awayScore, -3, 3);
    var d1 := if acting != EvenFive then Clamp(d0, -1, 1) else d0;
    var p3 := if s in {"4x4", "3x3"} && d1 == 0 then 1 else p2;
    AdjKey(s, e.evTeam != e.awayTeam, d1, p3)
  }

  /**
   * Every key falls in the adjustment table's ranges: a period class in
   * {1, 3, 4} and a score difference in [-3, 3]; outside 5-on-5 the period
   * class is 1 or 3 and the score difference in [-1, 1]; empty-net events
   * have state "EN"; the venue is the acting team's.
   */
  lemma AdjustmentKeyRanges(e: Play)
    ensures var k := AdjustmentKey(e);
      (e.period >= 1 ==> k.period in {1, 3, 4}) && -3 <= k.scoreDiff <= 3 &&
      (ActingStrength(e) != EvenFive ==> -1 <= k.scoreDiff <= 1 && (e.period >= 1 ==> k.period in {1, 3})) &&
      (e.emptyNet ==> k.strength == "EN") &&
      (ActingStrength(e) in ModelledStates ==> (k.strength == "EN" <==> e.emptyNet)) &&
      (!e.emptyNet && ActingPowerPlay(e) ==> k.strength == "PP") &&
      (k.home <==> e.evTeam != e.awayTeam)
  {
  }

  /** Adjustment factors of one key (a row of the adjustment table). */
  datatype Factors = Factors(goals: real, shots: real, attempts: real, unblocked: real, xG: real)

  /** Adjusted counts of one bucket. */
  datatype AdjustedTally = AdjustedTally(goals: real, shots: real, attempts: real, unblocked: real)

  /** The opposing goalie is off the ice (the acting team shoots at an empty net). */
  predicate OpposingGoalieMissing(e: Play)
  {
    (e.evTeam != e.awayTeam && !e.awayGoaliePresent) || (e.evTeam == e.awayTeam && !e.homeGoaliePresent)
  }

  /**
   * Adjusted counts of an event in a bucket: each flag times its factor (1.0
   * when the key has no row), with adjusted goals 0 when the opposing goalie
   * is missing.
   */
  function AdjustedOf(e: Play, b: Bucket, table: AdjKey -> Option<Factors>): AdjustedTally
  {
    Scaled(TallyOf(e, b), OpposingGoalieMissing(e), table(AdjustmentKey(e)))
  }

  /** Flags scaled by a table row `f` (1.0 without one); goals 0 when `noGoalie`. */
  function Scaled(t: Tally, noGoalie: bool, f: Option<Factors>): AdjustedTally
  {
    var fg := if f.Some? then f.value.goals else 1.0;
    var fs := if f.Some? then f.value.shots else 1.0;
    var fa := if f.Some? then f.value.attempts else 1.0;
    var fu := if f.Some? then f.value.unblocked else 1.0;
    AdjustedTally(
      if noGoalie then 0.0 else t.goals as real * fg,
      t.shots as real * fs, t.attempts as real * fa, t.unblocked as real * fu)
  }

  /**
   * An empty net earns no adjusted goal; without a table row the adjusted
   * counts are the raw counts; with one they are the counts scaled by it.
   */
  lemma AdjustedValues(e: Play, b: Bucket, table: AdjKey -> Option<Factors>)
    ensures OpposingGoalieMissing(e) ==> AdjustedOf(e, b, table).goals == 0.0
    ensures table(AdjustmentKey(e)).None? ==>
      var t := TallyOf(e, b); var a := AdjustedOf(e, b, table);
      (OpposingGoalieMissing(e) || a.goals == t.goals as real) && a.shots == t.shots as real &&
      a.attempts == t.attempts as real && a.unblocked == t.unblocked as real
    ensures table(AdjustmentKey(e)).Some? && !OpposingGoalieMissing(e) ==>
      AdjustedOf(e, b, table).goals == TallyOf(e, b).goals as real * table(AdjustmentKey(e)).value.goals
  {
    ScaledValues(TallyOf(e, b), OpposingGoalieMissing(e), table(AdjustmentKey(e)));
  }

  lemma ScaledValues(t: Tally, noGoalie: bool, f: Option<Factors>)
    ensures noGoalie ==> Scaled(t, noGoalie, f).goals == 0.0
    ensures f.None? ==> var a := Scaled(t, noGoalie, f);
      (noGoalie || a.goals == t.goals as real) && a.shots == t.shots as real &&
      a.attempts == t.attempts as real && a.unblocked == t.unblocked as real
    ensures f.Some? && !noGoalie ==> Scaled(t, noGoalie, f).goals == t.goals as real * f.value.goals
  {
  }

  // ---------------------------------------------------------------------
  // Expected goals.

  /** The xG and flurry-xG cells of an event in one column family (missing is NaN). */
  datatype XgCells = XgCells(xg: Option<real>, flurry: Option<real>)

  /**
   * Whether an event's xG is kept in a bucket: always in all situations (the
   * shootout included); at 5-on-5 only outside empty nets; on the acting
   * team's power play or penalty kill.
   */
  predicate XgKept(e: Play, b: Bucket)
  {
    match b
    case All => true
    case Even => e.strength == EvenFive && !e.emptyNet
    case PP => ActingPowerPlay(e)
    case PK => ActingPenaltyKill(e)
  }

  /** xG cells of an event in a bucket: the event's own where kept, NaN elsewhere. */
  function XgOf(e: Play, b: Bucket): (x: XgCells)
    ensures x.xg.Some? ==> x.xg == e.xg && XgKept(e, b)
    ensures x.flurry.Some? ==> x.flurry == e.xgFlurry && XgKept(e, b)
    ensures XgKept(e, b) ==> x == XgCells(e.xg, e.xgFlurry)
  {
    if XgKept(e, b) then XgCells(e.xg, e.xgFlurry) else XgCells(None, None)
  }

  /** A NaN-propagating product. */
  function TimesOpt(x: Option<real>, m: real): Option<real>
  {
    if x.Some? then Some(x.value * m) else None
  }

  /** Adjusted xG cells: both cells times the key's xG factor (1.0 without a row); NaN stays NaN. */
  function AdjustedXg(e: Play, b: Bucket, table: AdjKey -> Option<Factors>): XgCells
  {
    var f := table(AdjustmentKey(e));
    var m := if f.Some? then f.value.xG else 1.0;
    var x := XgOf(e, b);
    XgCells(TimesOpt(x.xg, m), TimesOpt(x.flurry, m))
  }

  function OrZero(x: Option<real>): real { if x.Some? then x.value else 0.0 }

  /**
   * The 5-on-5, power-play and penalty-kill xG of an event are exclusive:
   * together they hold the event's xG once when it falls in one of those
   * states and nothing otherwise; all situations always hold it.
   */
  lemma XgBucketsExclusive(e: Play)
    ensures XgOf(e, All) == XgCells(e.xg, e.xgFlurry)
    ensures OrZero(XgOf(e, Even).xg) + OrZero(XgOf(e, PP).xg) + OrZero(XgOf(e, PK).xg) ==
      if XgKept(e, Even) || XgKept(e, PP) || XgKept(e, PK) then OrZero(e.xg) else 0.0
    ensures !e.emptyNet && e.strength == EvenFive ==> XgOf(e, Even).xg == e.xg
    ensures e.emptyNet ==> XgOf(e, Even) == XgCells(None, None)
  {
    BucketsWithinAll(e, All);
    var a := ActingStrength(e);
    if a in PowerPlay || a in PenaltyKill {
      FlipOfKnownState(a);
      if e.evTeam == e.awayTeam {
        ReverseInvolution(e.strength);
      }
    }
  }

  /**
   * Adjusted xG is the xG times the key's factor, the raw xG when the key has
   * no row, and missing exactly when the xG is missing.
   */
  lemma AdjustedXgValues(e: Play, b: Bucket, table: AdjKey -> Option<Factors>)
    ensures AdjustedXg(e, b, table).xg.Some? <==> XgOf(e, b).xg.Some?
    ensures AdjustedXg(e, b, table).flurry.Some? <==> XgOf(e, b).flurry.Some?
    ensures table(AdjustmentKey(e)).None? ==> AdjustedXg(e, b, table) == XgOf(e, b)
    ensures table(AdjustmentKey(e)).Some? && XgOf(e, b).xg.Some? ==>
      AdjustedXg(e, b, table).xg.value == XgOf(e, b).xg.value * table(AdjustmentKey(e)).value.xG
  {
    var x := XgOf(e, b);
    if table(AdjustmentKey(e)).None? {
      assert TimesOpt(x.xg, 1.0) == x.xg;
      assert TimesOpt(x.flurry, 1.0) == x.flurry;
    }
  }

  /** Sum of a real column over the events of `k`'s game whose role `who` is `k`'s player, NaN skipped. */
  function SumXgFor(plays: seq<Play>, k: PlayerGame, who: Play -> Option<Player>, col: Play -> Option<real>): real
    decreases plays
  {
    if plays == [] then 0.0
    else
      var here := if InGameOf(plays[0], k) && who(plays[0]) == Some(k.player) then OrZero(col(plays[0])) else 0.0;
      here + SumXgFor(plays[1..], k, who, col)
  }

  /** The xG column of a bucket. */
  function XgColumn(b: Bucket): Play -> Option<real>
  {
    (e: Play) => XgOf(e, b).xg
  }

  /**
   * When every event is at 5-on-5 (outside an empty net), on a power play or
   * on a penalty kill, a player's xG in those three columns adds up to their
   * all-situations xG.
   */
  lemma {:induction false} XgSumsSplit(plays: seq<Play>, k: PlayerGame)
    requires forall i :: 0 <= i < |plays| ==> XgKept(plays[i], Even) || XgKept(plays[i], PP) || XgKept(plays[i], PK)
    ensures SumXgFor(plays, k, Credited, XgColumn(Even)) + SumXgFor(plays, k, Credited, XgColumn(PP))
      + SumXgFor(plays, k, Credited, XgColumn(PK)) == SumXgFor(plays, k, Credited, XgColumn(All))
    decreases plays
  {
    if plays != [] {
      XgBucketsExclusive(plays[0]);
      XgSumsSplit(plays[1..], k);
    }
  }

  /** The grouped xG sum over two tables is the sum of their grouped sums. */
  lemma {:induction false} SumXgForConcat(a: seq<Play>, b: seq<Play>, k: PlayerGame, who: Play -> Option<Player>, col: Play -> Option<real>)
    ensures SumXgFor(a + b, k, who, col) == SumXgFor(a, k, who, col) + SumXgFor(b, k, who, col)
    decreases a
  {
    if a == [] {
      assert a + b == b;
    } else {
      assert (a + b)[1..] == a[1..] + b;
      SumXgForConcat(a[1..], b, k, who, col);
    }
  }

  // ---------------------------------------------------------------------
  // Individual credit.

  /** The player an event is credited to: the second player of a BLOCK, the first of a shot, miss, goal or penalty. */
  function Credited(e: Play): (p: Option<Player>)
    ensures p.Some? ==> e.event in {"BLOCK", "SHOT", "MISS", "GOAL", "PENL"}
    ensures e.event == "BLOCK" ==> p == e.p2
    ensures e.event in {"SHOT", "MISS", "GOAL", "PENL"} ==> p == e.p1
  {
    if e.event == "BLOCK" then e.p2
    else if e.event in {"SHOT", "MISS", "GOAL", "PENL"} then e.p1
    else None
  }

  /** A player's row key: game, date, player and season. */
  datatype PlayerGame = PlayerGame(gameId: int, date: int, player: Player, season: int)

  predicate InGameOf(e: Play, k: PlayerGame)
  {
    e.gameId == k.gameId && e.date == k.date && e.season == k.season
  }

  /** Sum of `col` over the events of `k`'s game whose role `who` is `k`'s player (a grouped sum). */
  function SumFor(plays: seq<Play>, k: PlayerGame, who: Play -> Option<Player>, col: Play -> int): int
    decreases plays
  {
    if plays == [] then 0
    else
      var here := if InGameOf(plays[0], k) && who(plays[0]) == Some(k.player) then col(plays[0]) else 0;
      here + SumFor(plays[1..], k, who, col)
  }

  /** The grouped sum over two tables is the sum of their grouped sums. */
  lemma {:induction false} SumForConcat(a: seq<Play>, b: seq<Play>, k: PlayerGame, who: Play -> Option<Player>, col: Play -> int)
    ensures SumFor(a + b, k, who, col) == SumFor(a, k, who, col) + SumFor(b, k, who, col)
    decreases a
  {
    if a == [] {
      assert a + b == b;
    } else {
      assert (a + b)[1..] == a[1..] + b;
      SumForConcat(a[1..], b, k, who, col);
    }
  }

  function RoleP1(e: Play): Option<Player> { e.p1 }
  function RoleP2(e: Play): Option<Player> { e.p2 }
  function RoleP3(e: Play): Option<Player> { e.p3 }
  function GoalsCol(e: Play): int { TallyOf(e, All).goals }

  /** Keys of the individual table: players credited with at least one event. */
  predicate HasIndividualRow(plays: seq<Play>, k: PlayerGame)
  {
    exists i :: 0 <= i < |plays| && InGameOf(plays[i], k) && Credited(plays[i]) == Some(k.player)
  }

  /** Individual goals of a player in a game. */
  function IndividualGoals(plays: seq<Play>, k: PlayerGame): int
  {
    SumFor(plays, k, Credited, GoalsCol)
  }

  /**
   * Primary assists as written: summed per second player, then left-joined onto
   * the individual table, so a player with no individual row in the game keeps
   * 0 once the on-ice rows add that player.
   */
  function PrimaryAssistsAsWritten(plays: seq<Play>, k: PlayerGame): int
  {
    if HasIndividualRow(plays, k) then SumFor(plays, k, RoleP2, GoalsCol) else 0
  }

  /** Primary assists: goals (outside the shootout) on which the player is the second player. */
  function PrimaryAssists(plays: seq<Play>, k: PlayerGame): int
  {
    SumFor(plays, k, RoleP2, GoalsCol)
  }

  /** Penalties drawn: counted penalties on which the player is the second player. */
  function PenaltiesDrawn(plays: seq<Play>, k: PlayerGame): int
  {
    SumFor(plays, k, RoleP2, Penalty)
  }

  /** Secondary assists: goals on which the player is the third player. */
  function SecondaryAssists(plays: seq<Play>, k: PlayerGame): int
  {
    SumFor(plays, k, RoleP3, GoalsCol)
  }

  /** A goal by player A assisted by player B, who does nothing else in the game. */
  function AssistOnlyGame(): seq<Play>
  {
    [Play(1, 20190101, 2018, 1, 100, "GOAL", None, "5x5", "BOS", "BOS", "NYR", false, 0, 0, true, true,
      Some(Player("A", 1)), Some(Player("B", 2)), None, [], [], Some(0.2), Some(0.2), false)]
  }

  /**
   * As written, B's primary assist is lost because B has no individual row in
   * that game; counted per second player it is kept.
   */
  lemma AssistDroppedWithoutIndividualRow()
    ensures var k := PlayerGame(1, 20190101, Player("B", 2), 2018);
      PrimaryAssistsAsWritten(AssistOnlyGame(), k) == 0 && PrimaryAssists(AssistOnlyGame(), k) == 1
  {
    var plays := AssistOnlyGame();
    var k := PlayerGame(1, 20190101, Player("B", 2), 2018);
    assert !HasIndividualRow(plays, k) by {
      forall i | 0 <= i < |plays| ensures !(InGameOf(plays[i], k) && Credited(plays[i]) == Some(k.player)) {
        assert plays[i].event == "GOAL";
      }
    }
    assert plays[1..] == [];
  }

  /**
   * Every counted goal credits its scorer one goal, its second player one
   * primary assist and its third player one secondary assist, whatever else
   * the table holds: the credit of a table grows by exactly the credit of the
   * rows added to it.
   */
  lemma CreditIsAdditive(plays: seq<Play>, e: Play, k: PlayerGame)
    requires InGameOf(e, k) && TallyOf(e, All).goals == 1
    ensures e.p1 == Some(k.player) ==> IndividualGoals(plays + [e], k) == IndividualGoals(plays, k) + 1
    ensures e.p2 == Some(k.player) ==> PrimaryAssists(plays + [e], k) == PrimaryAssists(plays, k) + 1
    ensures e.p3 == Some(k.player) ==> SecondaryAssists(plays + [e], k) == SecondaryAssists(plays, k) + 1
  {
    SumForConcat(plays, [e], k, Credited, GoalsCol);
    SumForConcat(plays, [e], k, RoleP2, GoalsCol);
    SumForConcat(plays, [e], k, RoleP3, GoalsCol);
    assert [e][1..] == [];
  }

  /**
   * A penalty drawn is credited to the penalty's second player exactly when it
   * is counted: a PENL that is not a fighting major. No other event adds one.
   */
  lemma PenaltyDrawnCredit(plays: seq<Play>, e: Play, k: PlayerGame)
    requires InGameOf(e, k) && e.p2 == Some(k.player)
    ensures PenaltiesDrawn(plays + [e], k) == PenaltiesDrawn(plays, k) + 1 <==>
      e.event == "PENL" && !(e.penaltyType.Some? && Contains(e.penaltyType.value, "Fight"))
    ensures PenaltiesDrawn(plays + [e], k) == PenaltiesDrawn(plays, k) <==>
      !(e.event == "PENL" && !(e.penaltyType.Some? && Contains(e.penaltyType.value, "Fight")))
  {
    SumForConcat(plays, [e], k, RoleP2, Penalty);
    assert [e][1..] == [];
  }

  // ---------------------------------------------------------------------
  // On-ice credit.

  /** Which side an event counts for, as written: every BLOCK counts for both sides. */
  function TeamEventFlagsAsWritten(e: Play): (int, int)
  {
    (Flag(e.evTeam == e.homeTeam || (e.evTeam == e.awayTeam && e.event == "BLOCK")),
     Flag(e.evTeam == e.awayTeam || (e.evTeam == e.homeTeam && e.event == "BLOCK")))
  }

  /**
   * Which side an event counts for: the acting team's, except that a BLOCK
   * (recorded for the blocking team) counts for the shooting side.
   */
  function TeamEventFlags(e: Play): (f: (int, int))
    ensures e.homeTeam != e.awayTeam && e.evTeam in {e.homeTeam, e.awayTeam} ==> f.0 + f.1 == 1
  {
    var block := e.event == "BLOCK";
    (Flag((e.evTeam == e.homeTeam && !block) || (e.evTeam == e.awayTeam && block)),
     Flag((e.evTeam == e.awayTeam && !block) || (e.evTeam == e.homeTeam && block)))
  }

  /**
   * As written, a BLOCK counts for the home side and the away side at once,
   * so on-ice players are credited the attempt both for and against; other
   * events count for exactly the acting side, as in the corrected flags.
   */
  lemma BlockCountsForBothSides(e: Play)
    requires e.homeTeam != e.awayTeam && e.evTeam in {e.homeTeam, e.awayTeam}
    ensures e.event == "BLOCK" ==> TeamEventFlagsAsWritten(e) == (1, 1)
    ensures e.event != "BLOCK" ==> TeamEventFlagsAsWritten(e) == TeamEventFlags(e)
    ensures e.event != "BLOCK" ==> TeamEventFlags(e) == (Flag(e.evTeam == e.homeTeam), Flag(e.evTeam == e.awayTeam))
  {
  }

  /**
   * The flag rules the on-ice engine reads: the program's own, under which a
   * BLOCK counts for both sides and a blocked attempt on the penalty kill
   * counts as unblocked, or the corrected ones.
   */
  datatype Rules = AsWritten | Corrected

  /** Which side an event counts for under the rules. */
  function SideFlags(e: Play, v: Rules): (int, int)
  {
    if v == AsWritten then TeamEventFlagsAsWritten(e) else TeamEventFlags(e)
  }

  /** The flags of an event in a bucket under the rules. */
  function EventTally(e: Play, b: Bucket, v: Rules): Tally
  {
    if v == AsWritten && b == PK then TallyPenaltyKillAsWritten(e.event, ActingPenaltyKill(e)) else TallyOf(e, b)
  }

  /**
   * The two rule sets read the same flags except the penalty-kill unblocked
   * flag of a BLOCK, which as written is 1 where the corrected flag is 0.
   */
  lemma EventTallyRules(e: Play, b: Bucket)
    ensures e.event != "BLOCK" || b != PK ==> EventTally(e, b, AsWritten) == EventTally(e, b, Corrected)
    ensures e.event == "BLOCK" && b == PK && ActingPenaltyKill(e) ==>
      EventTally(e, b, AsWritten).unblocked == 1 && EventTally(e, b, Corrected).unblocked == 0 &&
      EventTally(e, b, AsWritten).attempts == EventTally(e, b, Corrected).attempts == 1
  {
  }

  /**
   * What one on-ice column reads of an event: the bucket's flags under the
   * rules, and the event's Rebound flag (the ReboundShotsAgainst column reads
   * the category and no bucket).
   */
  datatype OnIceCells = OnIceCells(tally: Tally, rebound: int)

  function EventCells(e: Play, b: Bucket, v: Rules): OnIceCells
  {
    OnIceCells(EventTally(e, b, v), Flag(e.rebound))
  }

  const SlotCount: nat := 12

  /** Player in slot `s`: slots 0-5 are the home side's, 6-11 the away side's. */
  function SlotPlayer(e: Play, s: nat): Option<Player>
    requires s < SlotCount
  {
    if s < 6 then (if s < |e.homeSlots| then e.homeSlots[s] else None)
    else (if s - 6 < |e.awaySlots| then e.awaySlots[s - 6] else None)
  }

  /** Against a side, power-play columns read the opponents' penalty-kill flags and vice versa. */
  function Opposite(b: Bucket): Bucket
  {
    match b
    case PP => PK
    case PK => PP
    case _ => b
  }

  /**
   * The credit one slot of one event gives a player: the bucket's flag
   * (`col` picks which) times the side flag of the slot's side, or of the
   * other side when counting against.
   */
  function SlotCredit(e: Play, s: nat, k: PlayerGame, col: OnIceCells -> int, b: Bucket, against: bool, v: Rules): int
    requires s < SlotCount
  {
    if !InGameOf(e, k) || SlotPlayer(e, s) != Some(k.player) then 0
    else
      var flags := SideFlags(e, v);
      var homeSide := s < 6;
      var side := if homeSide != against then flags.0 else flags.1;
      col(EventCells(e, if against then Opposite(b) else b, v)) * side
  }

  /** Credit of slot `s` over all events (one slot's column summed). */
  function SlotTotal(shots: seq<Play>, s: nat, k: PlayerGame, col: OnIceCells -> int, b: Bucket, against: bool, v: Rules): int
    requires s < SlotCount
    decreases shots
  {
    if shots == [] then 0 else SlotCredit(shots[0], s, k, col, b, against, v) + SlotTotal(shots[1..], s, k, col, b, against, v)
  }

  /** The first `n` slot columns added up. */
  function SlotsTotal(shots: seq<Play>, n: nat, k: PlayerGame, col: OnIceCells -> int, b: Bucket, against: bool, v: Rules): int
    requires n <= SlotCount
  {
    if n == 0 then 0 else SlotsTotal(shots, n - 1, k, col, b, against, v) + SlotTotal(shots, n - 1, k, col, b, against, v)
  }

  /** Credit of one event to a player over the first `n` slots. */
  function EventSlots(e: Play, n: nat, k: PlayerGame, col: OnIceCells -> int, b: Bucket, against: bool, v: Rules): int
    requires n <= SlotCount
  {
    if n == 0 then 0 else EventSlots(e, n - 1, k, col, b, against, v) + SlotCredit(e, n - 1, k, col, b, against, v)
  }

  /** Events that on-ice credit reads: shots, misses, goals, blocks and faceoffs. */
  predicate OnIceEvent(e: Play) { e.event in {"SHOT", "MISS", "GOAL", "BLOCK", "FAC"} }

  /**
   * On-ice credit of a player for one event, read per event: the flag times
   * the side flag of the side the player is on (the other side's when
   * counting against), 0 when the player is not on the ice.
   */
  function OnIceCredit(e: Play, k: PlayerGame, col: OnIceCells -> int, b: Bucket, against: bool, v: Rules): int
  {
    var flags := SideFlags(e, v);
    var stat := col(EventCells(e, if against then Opposite(b) else b, v));
    if !InGameOf(e, k) then 0
    else if Some(k.player) in e.homeSlots[..Min(6, |e.homeSlots|)] then stat * (if against then flags.1 else flags.0)
    else if Some(k.player) in e.awaySlots[..Min(6, |e.awaySlots|)] then stat * (if against then flags.0 else flags.1)
    else 0
  }

  function Min(a: int, b: int): int { if a <= b then a else b }

  /** The player fills at most one of the twelve slots of the event. */
  predicate AtMostOneSlot(e: Play, p: Player)
  {
    forall s, t :: 0 <= s < t < SlotCount && SlotPlayer(e, s) == Some(p) ==> SlotPlayer(e, t) != Some(p)
  }

  function OnIceTotal(shots: seq<Play>, k: PlayerGame, col: OnIceCells -> int, b: Bucket, against: bool, v: Rules): int
    decreases shots
  {
    if shots == [] then 0 else OnIceCredit(shots[0], k, col, b, against, v) + OnIceTotal(shots[1..], k, col, b, against, v)
  }

  /** Over slots 0 .. n-1, an event credits a player in at most one slot, and nothing when absent. */
  lemma {:induction false} EventSlotsSingle(e: Play, n: nat, k: PlayerGame, col: OnIceCells -> int, b: Bucket, against: bool, v: Rules)
    requires n <= SlotCount && AtMostOneSlot(e, k.player)
    ensures (forall s :: 0 <= s < n ==> SlotPlayer(e, s) != Some(k.player)) ==> EventSlots(e, n, k, col, b, against, v) == 0
    ensures forall s :: 0 <= s < n && SlotPlayer(e, s) == Some(k.player) ==>
      EventSlots(e, n, k, col, b, against, v) == SlotCredit(e, s, k, col, b, against, v)
  {
    if n > 0 {
      EventSlotsSingle(e, n - 1, k, col, b, against, v);
    }
  }

  /**
   * A player in one slot of an event is credited that event's flag times the
   * side flag exactly once: the twelve slot credits of an event add up to its
   * per-event on-ice credit.
   */
  lemma EventSlotsMatchCredit(e: Play, k: PlayerGame, col: OnIceCells -> int, b: Bucket, against: bool, v: Rules)
    requires AtMostOneSlot(e, k.player)
    ensures EventSlots(e, SlotCount, k, col, b, against, v) == OnIceCredit(e, k, col, b, against, v)
  {
    EventSlotsSingle(e, SlotCount, k, col, b, against, v);
    var hs := e.homeSlots[..Min(6, |e.homeSlots|)];
    var as_ := e.awaySlots[..Min(6, |e.awaySlots|)];
    if Some(k.player) in hs {
      var i :| 0 <= i < |hs| && hs[i] == Some(k.player);
      assert SlotPlayer(e, i) == Some(k.player);
    } else if Some(k.player) in as_ {
      var i :| 0 <= i < |as_| && as_[i] == Some(k.player);
      assert SlotPlayer(e, i + 6) == Some(k.player);
    } else {
      forall s | 0 <= s < SlotCount ensures SlotPlayer(e, s) != Some(k.player) {
        if s < 6 && s < |e.homeSlots| {
          assert e.homeSlots[s] == hs[s];
        } else if s >= 6 && s - 6 < |e.awaySlots| {
          assert e.awaySlots[s - 6] == as_[s - 6];
        }
      }
    }
  }

  /** Adding the slot columns in either order: slots-then-events equals events-then-slots. */
  lemma {:induction false} SlotsTotalByEvent(shots: seq<Play>, n: nat, k: PlayerGame, col: OnIceCells -> int, b: Bucket, against: bool, v: Rules)
    requires n <= SlotCount
    ensures shots == [] ==> SlotsTotal(shots, n, k, col, b, against, v) == 0
    ensures shots != [] ==>
      (SlotsTotal(shots, n, k, col, b, against, v) ==
       EventSlots(shots[0], n, k, col, b, against, v) + SlotsTotal(shots[1..], n, k, col, b, against, v))
  {
    if n > 0 {
      SlotsTotalByEvent(shots, n - 1, k, col, b, against, v);
    }
  }

  /**
   * When the player fills at most one slot of every event, the sum of the
   * twelve slot columns is the per-event on-ice credit summed over events.
   */
  lemma {:induction false} SlotsTotalMatchesOnIce(shots: seq<Play>, k: PlayerGame, col: OnIceCells -> int, b: Bucket, against: bool, v: Rules)
    requires forall i :: 0 <= i < |shots| ==> AtMostOneSlot(shots[i], k.player)
    ensures SlotsTotal(shots, SlotCount, k, col, b, against, v) == OnIceTotal(shots, k, col, b, against, v)
    decreases shots
  {
    SlotsTotalByEvent(shots, SlotCount, k, col, b, against, v);
    if shots != [] {
      EventSlotsMatchCredit(shots[0], k, col, b, against, v);
      SlotsTotalMatchesOnIce(shots[1..], k, col, b, against, v);
    }
  }

  /**
   * On-ice credit of a player: for each of the twelve slots in turn, add the
   * slot's credit from every event, as the slot loops add one column per slot
   * and the columns are summed at the end.
   */
  method OnIceSlots(shots: seq<Play>, k: PlayerGame, col: OnIceCells -> int, b: Bucket, against: bool, v: Rules) returns (total: int)
    ensures total == SlotsTotal(shots, SlotCount, k, col, b, against, v)
    ensures (forall i :: 0 <= i < |shots| ==> AtMostOneSlot(shots[i], k.player)) ==>
      total == OnIceTotal(shots, k, col, b, against, v)
  {
    total := 0;
    var s := 0;
    while s < SlotCount
      invariant s <= SlotCount
      invariant total == SlotsTotal(shots, s, k, col, b, against, v)
    {
      var column := 0;
      var i := |shots|;
      assert shots[..i] == shots;
      while i > 0
        invariant 0 <= i <= |shots|
        invariant column + SlotTotal(shots[..i], s, k, col, b, against, v) == SlotTotal(shots, s, k, col, b, against, v)
      {
        SlotTotalSplit(shots[..i], s, k, col, b, against, v);
        assert shots[..i][..i - 1] == shots[..i - 1];
        column := column + SlotCredit(shots[i - 1], s, k, col, b, against, v);
        i := i - 1;
      }
      assert shots[..0] == [];
      total := total + column;
      s := s + 1;
    }
    if forall i :: 0 <= i < |shots| ==> AtMostOneSlot(shots[i], k.player) {
      SlotsTotalMatchesOnIce(shots, k, col, b, against, v);
    }
  }

  /** A slot column over a non-empty table: the column over all but the last event, plus the last. */
  lemma {:induction false} SlotTotalSplit(shots: seq<Play>, s: nat, k: PlayerGame, col: OnIceCells -> int, b: Bucket, against: bool, v: Rules)
    requires s < SlotCount && shots != []
    ensures SlotTotal(shots, s, k, col, b, against, v) ==
      SlotTotal(shots[..|shots| - 1], s, k, col, b, against, v) + SlotCredit(shots[|shots| - 1], s, k, col, b, against, v)
    decreases shots
  {
    if |shots| > 1 {
      SlotTotalSplit(shots[1..], s, k, col, b, against, v);
      assert shots[1..][..|shots| - 2] == shots[..|shots| - 1][1..];
    }
  }

  function AttemptsCol(c: OnIceCells): int { c.tally.attempts }

  function ReboundCol(c: OnIceCells): int { c.rebound }

  /**
   * As written, a player on the ice for the blocking home team is credited a
   * BLOCK both as an attempt for and as an attempt against; under the
   * corrected flags it counts against only.
   */
  lemma BlockCreditedBothWays(e: Play, k: PlayerGame)
    requires e.event == "BLOCK" && e.strength != Shootout && InGameOf(e, k)
    requires e.evTeam == e.homeTeam && e.homeTeam != e.awayTeam
    requires Some(k.player) in e.homeSlots[..Min(6, |e.homeSlots|)]
    ensures OnIceCredit(e, k, AttemptsCol, All, false, AsWritten) == 1
    ensures OnIceCredit(e, k, AttemptsCol, All, true, AsWritten) == 1
    ensures OnIceCredit(e, k, AttemptsCol, All, false, Corrected) == 0
    ensures OnIceCredit(e, k, AttemptsCol, All, true, Corrected) == 1
  {
  }

  /**
   * The ReboundShotsAgainst column of a home player on the ice is the
   * event's Rebound flag when the away team shot, in every bucket, and 0
   * when the home team shot.
   */
  lemma ReboundsAgainstOnIce(e: Play, k: PlayerGame, b: Bucket, v: Rules)
    requires InGameOf(e, k) && e.homeTeam != e.awayTeam && e.evTeam in {e.homeTeam, e.awayTeam}
    requires Some(k.player) in e.homeSlots[..Min(6, |e.homeSlots|)]
    requires e.event != "BLOCK"
    ensures e.evTeam == e.awayTeam ==> OnIceCredit(e, k, ReboundCol, b, true, v) == Flag(e.rebound)
    ensures e.evTeam == e.homeTeam ==> OnIceCredit(e, k, ReboundCol, b, true, v) == 0
  {
    BlockCountsForBothSides(e);
  }

  /** Away from BLOCK events the two rule sets give the same on-ice credit. */
  lemma OnIceRulesAgree(e: Play, k: PlayerGame, col: OnIceCells -> int, b: Bucket, against: bool)
    requires e.event != "BLOCK"
    ensures OnIceCredit(e, k, col, b, against, AsWritten) == OnIceCredit(e, k, col, b, against, Corrected)
  {
    EventTallyRules(e, if against then Opposite(b) else b);
  }

  /** Hence over a table without BLOCK events the on-ice totals agree too. */
  lemma {:induction false} OnIceTotalRulesAgree(shots: seq<Play>, k: PlayerGame, col: OnIceCells -> int, b: Bucket, against: bool)
    requires forall i :: 0 <= i < |shots| ==> shots[i].event != "BLOCK"
    ensures OnIceTotal(shots, k, col, b, against, AsWritten) == OnIceTotal(shots, k, col, b, against, Corrected)
    decreases shots
  {
    if shots != [] {
      OnIceRulesAgree(shots[0], k, col, b, against);
      OnIceTotalRulesAgree(shots[1..], k, col, b, against);
    }
  }

  /**
   * Power-play columns against a home player count the away team's events
   * while the away team is short-handed, that is while the home team is on the
   * power play (read from the home side).
   */
  lemma AgainstPowerPlayIsOwnPowerPlay(e: Play)
    requires e.evTeam == e.awayTeam && e.homeTeam != e.awayTeam
    ensures TallyOf(e, Opposite(PP)).attempts == Flag(e.strength in PowerPlay && e.event in {"SHOT", "MISS", "GOAL", "BLOCK"})
  {
    var a := ActingStrength(e);
    ReverseInvolution(e.strength);
    if e.strength in PowerPlay {
      FlipOfKnownState(e.strength);
    }
    if a in PenaltyKill {
      FlipOfKnownState(a);
      assert Reverse(a) == e.strength;
    }
  }

  // ---------------------------------------------------------------------
  // Position, playoffs, wins.

  /** Index of the first largest vote (pandas `idxmax`). */
  function FirstMax(votes: seq<int>): (k: nat)
    requires |votes| > 0
    ensures k < |votes|
    ensures forall j :: 0 <= j < |votes| ==> votes[j] <= votes[k]
    ensures forall j :: 0 <= j < k ==> votes[j] < votes[k]
  {
    if |votes| == 1 then 0
    else
      var k := FirstMax(votes[..|votes| - 1]);
      if votes[|votes| - 1] > votes[k] then |votes| - 1 else k
  }

  /** Position from the six slot votes: slots 1-3 forward, 4-5 defence, 6 goalie. */
  function PositionOf(votes: seq<int>): (pos: string)
    requires |votes| == 6
  {
    var k := FirstMax(votes);
    if k < 3 then "F" else if k < 5 then "D" else "G"
  }

  /**
   * A player is a goalie exactly when the goalie slot's votes exceed every
   * other slot's, a forward when a forward slot holds the first largest vote.
   */
  lemma PositionVote(votes: seq<int>)
    requires |votes| == 6
    ensures PositionOf(votes) == "G" <==> forall j :: 0 <= j < 5 ==> votes[j] < votes[5]
    ensures PositionOf(votes) == "F" <==> exists j :: 0 <= j < 3 && forall m :: 0 <= m < 6 ==> votes[m] <= votes[j]
  {
    var k := FirstMax(votes);
    if forall j :: 0 <= j < 5 ==> votes[j] < votes[5] {
      assert k == 5;
    }
    if exists j :: 0 <= j < 3 && forall m :: 0 <= m < 6 ==> votes[m] <= votes[j] {
      var j :| 0 <= j < 3 && forall m :: 0 <= m < 6 ==> votes[m] <= votes[j];
      assert votes[k] <= votes[j];
      assert k <= j;
    }
  }

  /**
   * Votes of a player: the number of events in which the player fills slot k
   * of either side.
   */
  function PositionVotes(shots: seq<Play>, p: Player): (v: seq<int>)
    ensures |v| == 6
  {
    seq(6, k requires 0 <= k < 6 => Count(shots, (e: Play) => SlotPlayer(e, k) == Some(p)) + Count(shots, (e: Play) => SlotPlayer(e, k + 6) == Some(p)))
  }

  /**
   * Playoff game: a team's 83rd distinct game date of the season or later, the
   * 49th in 2012, the 57th in 2020, or any 2019 game after 12 March 2020.
   */
  function Playoffs(season: int, teamGameRank: int, date: int): bool
  {
    teamGameRank > 82 || (season == 2012 && teamGameRank > 48) ||
    (season == 2019 && date > 20200312) || (season == 2020 && teamGameRank > 56)
  }

  /**
   * The playoff flag never switches back within a season (it only grows with
   * the game rank and the date), and a team's first 48 dates are regular
   * season apart from the 2019 cut-off.
   */
  lemma PlayoffsMonotone(season: int, r1: int, d1: int, r2: int, d2: int)
    requires r1 <= r2 && d1 <= d2
    ensures Playoffs(season, r1, d1) ==> Playoffs(season, r2, d2)
    ensures r1 <= 48 && !(season == 2019 && d1 > 20200312) ==> !Playoffs(season, r1, d1)
  {
  }

  /** Playoff flag of row `i` of a team-game table, ranking dates within (team, season). */
  function PlayoffsAt(teams: seq<(string, int)>, dates: seq<int>, i: nat): bool
    requires |teams| == |dates| && i < |dates|
  {
    Playoffs(teams[i].1, DenseRank(teams, dates, i), dates[i])
  }

  /** Within a team's season, a later date is never regular season after a playoff date. */
  lemma PlayoffsAtOrdered(teams: seq<(string, int)>, dates: seq<int>, i: nat, j: nat)
    requires |teams| == |dates| && i < |dates| && j < |dates| && teams[i] == teams[j] && dates[i] <= dates[j]
    ensures PlayoffsAt(teams, dates, i) ==> PlayoffsAt(teams, dates, j)
  {
    DenseRankOrder(teams, dates, j, i);
    PlayoffsMonotone(teams[i].1, DenseRank(teams, dates, i), dates[i], DenseRank(teams, dates, j), dates[j]);
  }

  /**
   * Win flag of a team in a game: its goals are the game's most and its
   * shootout goals the game's most.
   */
  function Win(goals: int, shootout: int, oppGoals: int, oppShootout: int): bool
  {
    goals == (if goals >= oppGoals then goals else oppGoals) &&
    shootout == (if shootout >= oppShootout then shootout else oppShootout)
  }

  /**
   * In a decided game exactly one team wins: by goals when the goals differ and
   * neither side scored in a shootout, by shootout goals when the goals tie.
   */
  lemma OneWinner(g1: int, s1: int, g2: int, s2: int)
    requires (g1 != g2 && s1 == s2) || (g1 == g2 && s1 != s2)
    ensures Win(g1, s1, g2, s2) != Win(g2, s2, g1, s1)
    ensures Win(g1, s1, g2, s2) <==> (g1 > g2 || (g1 == g2 && s1 > s2))
  {
  }

  /**
   * The Win flag in every case: a team is flagged exactly when it has at
   * least the other's goals and at least its shootout goals, so a full tie
   * flags both teams, and more goals with fewer shootout goals flags neither.
   */
  lemma WinCases(g1: int, s1: int, g2: int, s2: int)
    ensures Win(g1, s1, g2, s2) <==> g1 >= g2 && s1 >= s2
    ensures g1 == g2 && s1 == s2 ==> Win(g1, s1, g2, s2) && Win(g2, s2, g1, s1)
    ensures g1 > g2 && s1 < s2 ==> !Win(g1, s1, g2, s2) && !Win(g2, s2, g1, s1)
  {
  }

  // ---------------------------------------------------------------------
  // Team-level flags (aggregate_team_data).

  /**
   * Team flags of an event: regular goals are those away from second 0, the
   * second every shootout attempt is recorded at; 5-on-5 flags exclude empty nets.
   */
  function TeamTally(e: Play, b: Bucket): Tally
    requires b == All || b == Even
  {
    if b == All then TallyIn(e.event, e.seconds != 0)
    else TallyIn(e.event, e.strength == EvenFive && !e.emptyNet)
  }

  function TeamShootoutGoal(e: Play): int { Flag(e.event == "GOAL" && e.seconds == 0) }

  /** Every goal is either a regular team goal or a shootout goal, never both. */
  lemma TeamGoalsSplit(e: Play)
    ensures TeamTally(e, All).goals + TeamShootoutGoal(e) == Flag(e.event == "GOAL")
  {
  }

  /** Team rows kept: three-letter team codes only. */
  predicate KeptTeam(team: string) { |team| == 3 }
}
