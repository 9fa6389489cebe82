/**
 * Shot feature extraction (get_shots_data) and the flurry discount of
 * expected goals. Each located event is paired with the event just before it
 * in the same game and period; shots are then filtered to the modelled game
 * states, classified as rebound or rush, paired with the previous modelled
 * shot, mirrored to one end of the rink and expressed from the shooter's side.
 * The input is taken in (game, period, second) order.
 */
module Shots {
  import opened Wrappers
  import opened Seqs
  import opened Strength

  /** One play-by-play row, as far as shot features read it. */
  datatype PlayEvent = PlayEvent(
    gameId: int, period: int, seconds: int, event: string,
    xC: Option<real>, yC: Option<real>,
    evTeam: string, homeTeam: string, awayTeam: string, strength: string,
    homeGoaliePresent: bool, awayGoaliePresent: bool,
    homeScore: int, awayScore: int)

  /** Events that can serve as the "previous event" of a shot. */
  const LocatedEventTypes: set<string> := {"MISS", "SHOT", "GOAL", "FAC", "HIT", "BLOCK", "GIVE", "TAKE"}
  /** Events that xG is predicted on. */
  const ShotEventTypes: set<string> := {"MISS", "SHOT", "GOAL"}
  /** Seconds used for "no previous shot". */
  const NoPreviousShot: int := 1200

  predicate Located(e: PlayEvent)
  {
    e.event in LocatedEventTypes && e.xC.Some? && e.yC.Some?
  }

  predicate SameGamePeriod(a: PlayEvent, b: PlayEvent)
  {
    a.gameId == b.gameId && a.period == b.period
  }

  function Abs(x: real): real { if x < 0.0 then -x else x }

  predicate AllLocated(c: seq<PlayEvent>)
  {
    forall k :: 0 <= k < |c| ==> Located(c[k])
  }

  /** Events kept as candidates: a located event type with both coordinates. */
  function Candidates(df: seq<PlayEvent>): (c: seq<PlayEvent>)
    ensures AllLocated(c)
    ensures forall e :: e in c ==> e in df
  {
    var c := Filter(df, Located);
    assert forall k :: 0 <= k < |c| ==> c[k] in c;
    c
  }

  /** What a candidate knows about the candidate before it. */
  datatype Context = Context(
    keepPrev: bool, prevEvent: Option<string>, prevSeconds: int,
    prevX: real, prevY: real, prevSameTeam: bool)

  /** One candidate with its coordinates and previous-event context. */
  datatype Annotated = Annotated(e: PlayEvent, x: real, y: real, ctx: Context)

  /**
   * The previous-event context of candidate `i`. A previous row of another game
   * or period is not kept: its event becomes missing and its time and
   * coordinates 0. The same-team flag is read from the raw previous row either way.
   */
  function Annotate(c: seq<PlayEvent>, i: nat): (a: Annotated)
    requires i < |c| && AllLocated(c)
  {
    var e := c[i];
    var sameTeam := i > 0 && c[i - 1].evTeam == e.evTeam;
    var ctx :=
      if i > 0 && SameGamePeriod(c[i - 1], e)
      then Context(true, Some(c[i - 1].event), c[i - 1].seconds, c[i - 1].xC.value, c[i - 1].yC.value, sameTeam)
      else Context(false, None, 0, 0.0, 0.0, sameTeam);
    Annotated(e, e.xC.value, e.yC.value, ctx)
  }

  function AnnotateAll(c: seq<PlayEvent>): (r: seq<Annotated>)
    requires AllLocated(c)
  {
    seq(|c|, i requires 0 <= i < |c| => Annotate(c, i))
  }

  function TimeSincePrev(a: Annotated): int { a.e.seconds - a.ctx.prevSeconds }
  function XDistanceSincePrev(a: Annotated): real { Abs(a.x - a.ctx.prevX) }

  /** The shooting team shoots at an empty net. */
  predicate IntoEmptyNet(e: PlayEvent)
  {
    (e.evTeam == e.homeTeam && !e.awayGoaliePresent) || (e.evTeam == e.awayTeam && !e.homeGoaliePresent)
  }

  /** A candidate that stays in the shot table. */
  predicate Modelled(a: Annotated)
  {
    a.e.event in ShotEventTypes && a.e.strength in ModelledStates && !IntoEmptyNet(a.e)
  }

  datatype Category = Unknown | Rebound | Rush

  /** Rush wins over rebound because it is assigned last. */
  function CategoryOf(a: Annotated): Category
  {
    if TimeSincePrev(a) <= 4 && XDistanceSincePrev(a) >= 50.0 then Rush
    else if TimeSincePrev(a) <= 2 && a.ctx.prevSameTeam && a.ctx.prevEvent == Some("SHOT") then Rebound
    else Unknown
  }

  /** +1 when x > 0 and -1 otherwise: moves every shot to the positive-x end. */
  function SideFactor(x: real): real { if x > 0.0 then 1.0 else -1.0 }

  datatype Shot = Shot(
    gameId: int, period: int, seconds: int, event: string, evTeam: string,
    strength: string, x: real, y: real, xAdj: real, yAdj: real,
    prevXAdj: real, prevYAdj: real,
    category: Category, timeSincePrev: int, xDistanceSincePrev: real, yDistanceSincePrev: real,
    prevEvent: Option<string>, prevSameTeam: bool,
    timeSincePrevShot: int, prevShotSeconds: int, prevShotX: real, prevShotY: real,
    prevShotXAdj: real, prevShotYAdj: real, yDistanceSincePrevShot: real, prevShotSameTeam: bool,
    scoreFor: int, scoreAgainst: int, scoreDiff: int, goal: bool)

  /** Final features of kept shot `j`, reading the kept shot before it. */
  function Finish(k: seq<Annotated>, j: nat): Shot
    requires j < |k|
  {
    var a := k[j];
    var e := a.e;
    var prev: Option<Annotated> := if j > 0 && SameGamePeriod(k[j - 1].e, e) then Some(k[j - 1]) else None;
    var gap := if prev.Some? then e.seconds - prev.value.e.seconds else NoPreviousShot;
    var homeShot := e.homeTeam == e.evTeam;
    var scoreFor := if homeShot then e.homeScore else e.awayScore;
    var scoreAgainst := if homeShot then e.awayScore else e.homeScore;
    Shot(
      e.gameId, e.period, e.seconds, e.event, e.evTeam,
      ForActingTeam(e.strength, e.evTeam == e.awayTeam),
      a.x, a.y, a.x * SideFactor(a.x), a.y * SideFactor(a.x),
      a.ctx.prevX * SideFactor(a.ctx.prevX), a.ctx.prevY * SideFactor(a.ctx.prevX),
      CategoryOf(a), TimeSincePrev(a), XDistanceSincePrev(a), Abs(a.y - a.ctx.prevY),
      a.ctx.prevEvent, a.ctx.prevSameTeam,
      if gap < 0 then NoPreviousShot else gap,
      if prev.Some? then prev.value.e.seconds else 0,
      if prev.Some? then prev.value.x else 0.0,
      if prev.Some? then prev.value.y else 0.0,
      if prev.Some? then prev.value.x * SideFactor(prev.value.x) else -1.0,
      if prev.Some? then prev.value.y * SideFactor(prev.value.x) else 0.0,
      if prev.Some? then Abs(a.y - prev.value.y) else -1.0,
      j > 0 && k[j - 1].e.evTeam == e.evTeam,
      scoreFor, scoreAgainst, scoreFor - scoreAgainst,
      e.event == "GOAL")
  }

  /** Candidates that survive the shot filters, with their contexts. */
  function KeptShots(df: seq<PlayEvent>): (k: seq<Annotated>)
    ensures forall a :: a in k ==> Modelled(a) && exists i :: 0 <= i < |Candidates(df)| && a == Annotate(Candidates(df), i)
  {
    var c := Candidates(df);
    var all := AnnotateAll(c);
    var k := Filter(all, Modelled);
    assert forall a :: a in k ==> a in all;
    k
  }

  /** The shot table built from a play-by-play table. */
  function ShotsData(df: seq<PlayEvent>): (r: seq<Shot>)
    ensures |r| == |KeptShots(df)|
  {
    var k := KeptShots(df);
    seq(|k|, j requires 0 <= j < |k| => Finish(k, j))
  }

  /** How shot `s` must relate to candidate `i` and the candidate before it. */
  ghost predicate CategoryRule(c: seq<PlayEvent>, i: nat, s: Shot)
    requires i < |c| && AllLocated(c)
  {
    var e := c[i];
    s.gameId == e.gameId && s.period == e.period && s.seconds == e.seconds && s.event == e.event &&
    if i > 0 && SameGamePeriod(c[i - 1], e) then
      var p := c[i - 1];
      var rush := e.seconds - p.seconds <= 4 && Abs(e.xC.value - p.xC.value) >= 50.0;
      s.timeSincePrev == e.seconds - p.seconds &&
      (s.category == Rush <==> rush) &&
      (s.category == Rebound <==>
         !rush && e.seconds - p.seconds <= 2 && p.evTeam == e.evTeam && p.event == "SHOT")
    else
      s.timeSincePrev == e.seconds &&
      s.category != Rebound &&
      (s.category == Rush <==> e.seconds <= 4 && Abs(e.xC.value) >= 50.0)
  }

  /**
   * Every shot comes from one candidate event and is classified from the
   * candidate just before it: a rebound follows a same-team SHOT within two
   * seconds; a rush follows any located event within four seconds and at least
   * 50 feet away along the rink. At the start of a game or period the previous
   * time and position count as 0 and no shot is a rebound.
   */
  lemma CategoryFollowsPreviousEvent(df: seq<PlayEvent>, j: nat)
    requires j < |ShotsData(df)|
    ensures exists i :: 0 <= i < |Candidates(df)| && CategoryRule(Candidates(df), i, ShotsData(df)[j])
  {
    var c := Candidates(df);
    var k := KeptShots(df);
    assert k[j] in k;
    var i :| 0 <= i < |c| && k[j] == Annotate(c, i);
    assert ShotsData(df)[j] == Finish(k, j);
    assert CategoryRule(c, i, ShotsData(df)[j]);
  }

  /**
   * Every shot left in the table is a MISS, SHOT or GOAL in one of the nine
   * modelled states (seen from the shooter), not into an empty net, mirrored
   * to non-negative x with y flipped alike, with a non-negative time since the
   * previous shot and a score difference from the shooter's side.
   */
  lemma ShotTableInvariants(df: seq<PlayEvent>, j: nat)
    requires j < |ShotsData(df)|
    ensures var s := ShotsData(df)[j];
      s.event in ShotEventTypes && s.strength in ModelledStates &&
      s.xAdj == Abs(s.x) && Abs(s.yAdj) == Abs(s.y) &&
      0 <= s.timeSincePrevShot &&
      (s.goal <==> s.event == "GOAL") &&
      s.scoreDiff == s.scoreFor - s.scoreAgainst
    ensures var s := ShotsData(df)[j];
      exists i :: 0 <= i < |Candidates(df)| &&
        var e := Candidates(df)[i];
        !IntoEmptyNet(e) && e.strength in ModelledStates && s.evTeam == e.evTeam &&
        s.strength == ForActingTeam(e.strength, e.evTeam == e.awayTeam) &&
        s.scoreFor == (if e.evTeam == e.homeTeam then e.homeScore else e.awayScore) &&
        s.scoreAgainst == (if e.evTeam == e.homeTeam then e.awayScore else e.homeScore)
  {
    var k := KeptShots(df);
    assert k[j] in k;
    var a := k[j];
    assert Modelled(a);
    var i :| 0 <= i < |Candidates(df)| && a == Annotate(Candidates(df), i);
    assert a.e == Candidates(df)[i];
    assert ShotsData(df)[j] == Finish(k, j);
    FinishedRow(k, j, Candidates(df)[i]);
  }

  /** The finished row of a kept, modelled shot, in terms of the event it was annotated from. */
  lemma FinishedRow(k: seq<Annotated>, j: nat, e: PlayEvent)
    requires j < |k| && Modelled(k[j]) && k[j].e == e
    ensures var s := Finish(k, j);
      s.event in ShotEventTypes && s.strength in ModelledStates &&
      s.xAdj == Abs(s.x) && Abs(s.yAdj) == Abs(s.y) &&
      0 <= s.timeSincePrevShot &&
      (s.goal <==> s.event == "GOAL") &&
      s.scoreDiff == s.scoreFor - s.scoreAgainst
    ensures var s := Finish(k, j);
      s.evTeam == e.evTeam &&
      s.strength == ForActingTeam(e.strength, e.evTeam == e.awayTeam) &&
      s.scoreFor == (if e.evTeam == e.homeTeam then e.homeScore else e.awayScore) &&
      s.scoreAgainst == (if e.evTeam == e.homeTeam then e.awayScore else e.homeScore)
  {
    FlipSwapsPowerPlayAndPenaltyKill(e.strength);
  }

  /**
   * The time since the previous shot is the gap to the shot before it in the
   * table when both are in the same game and period and the gap is not
   * negative; otherwise it is 1200 seconds.
   */
  lemma PreviousShotGap(df: seq<PlayEvent>, j: nat)
    requires j < |ShotsData(df)|
    ensures var r := ShotsData(df);
      if j > 0 && r[j - 1].gameId == r[j].gameId && r[j - 1].period == r[j].period
         && r[j].seconds - r[j - 1].seconds >= 0
      then r[j].timeSincePrevShot == r[j].seconds - r[j - 1].seconds
      else r[j].timeSincePrevShot == NoPreviousShot
  {
    var r := ShotsData(df);
    var k := KeptShots(df);
    assert r[j] == Finish(k, j);
    if j > 0 {
      assert r[j - 1] == Finish(k, j - 1);
    }
  }

  // ---------------------------------------------------------------------
  // Flurry adjustment of expected goals.

  /** A play-by-play row after xG has been attached. */
  datatype XGRow = XGRow(gameId: int, date: int, season: int, period: int, isRebound: bool, xG: Option<real>)

  predicate SameGroup(a: XGRow, b: XGRow)
  {
    a.gameId == b.gameId && a.date == b.date && a.season == b.season && a.period == b.period
  }

  /** Index of the previous row of the same (game, date, season, period) group (pandas groupby shift). */
  function PrevInGroup(rows: seq<XGRow>, i: nat): (r: Option<nat>)
    requires i <= |rows|
    ensures r.Some? ==> r.value < i
    ensures i < |rows| && r.Some? ==> SameGroup(rows[r.value], rows[i])
    ensures i < |rows| ==> forall j :: (if r.Some? then r.value else -1) < j < i ==> !SameGroup(rows[j], rows[i])
    decreases i
  {
    if i == 0 || i == |rows| then None
    else PrevBefore(rows, i, i - 1)
  }

  /** Scan backwards from `j` for a row in the group of row `i`. */
  function PrevBefore(rows: seq<XGRow>, i: nat, j: int): (r: Option<nat>)
    requires i < |rows| && -1 <= j < i
    ensures r.Some? ==> r.value <= j && SameGroup(rows[r.value], rows[i])
    ensures forall m :: (if r.Some? then r.value else -1) < m <= j ==> !SameGroup(rows[m], rows[i])
    decreases j + 1
  {
    if j < 0 then None
    else if SameGroup(rows[j], rows[i]) then Some(j)
    else PrevBefore(rows, i, j - 1)
  }

  /**
   * Flurry-discounted xG of row `i`: a rebound keeps only the share of its xG
   * not already expected from the shot before it in the group, xG * (1 - prev xG).
   * A missing xG on either side makes the result missing.
   */
  function FlurryXG(rows: seq<XGRow>, i: nat): Option<real>
    requires i < |rows|
  {
    var r := rows[i];
    if !r.isRebound then r.xG
    else
      var p := PrevInGroup(rows, i);
      if r.xG.Some? && p.Some? && rows[p.value].xG.Some?
      then Some(r.xG.value * (1.0 - rows[p.value].xG.value))
      else None
  }

  /**
   * The flurry discount leaves non-rebounds alone and never raises a rebound's
   * xG: with probabilities in [0, 1] the result lies between 0 and the raw xG.
   * A rebound that opens its group has no previous xG and its result is missing.
   * Otherwise the result is xG * (1 - prev xG), so that the previous shot's xG
   * plus the discounted one is the chance that at least one of the two scores.
   */
  lemma FlurryDiscount(rows: seq<XGRow>, i: nat)
    requires i < |rows|
    ensures !rows[i].isRebound ==> FlurryXG(rows, i) == rows[i].xG
    ensures rows[i].isRebound && (forall j :: 0 <= j < i ==> !SameGroup(rows[j], rows[i]))
      ==> FlurryXG(rows, i).None?
    ensures rows[i].isRebound && rows[i].xG.Some? && 0.0 <= rows[i].xG.value
      && (forall j :: 0 <= j < i && rows[j].xG.Some? ==> 0.0 <= rows[j].xG.value <= 1.0)
      && FlurryXG(rows, i).Some?
      ==> 0.0 <= FlurryXG(rows, i).value <= rows[i].xG.value
    ensures var p := PrevInGroup(rows, i);
      rows[i].isRebound && p.Some? && rows[i].xG.Some? && rows[p.value].xG.Some?
      ==> (FlurryXG(rows, i) == Some(rows[i].xG.value * (1.0 - rows[p.value].xG.value))
           && rows[p.value].xG.value + FlurryXG(rows, i).value
              == 1.0 - (1.0 - rows[p.value].xG.value) * (1.0 - rows[i].xG.value))
  {
    var p := PrevInGroup(rows, i);
    if rows[i].isRebound && p.Some? && rows[i].xG.Some? && rows[p.value].xG.Some? {
      var x := rows[i].xG.value;
      var q := rows[p.value].xG.value;
      if 0.0 <= x && 0.0 <= q <= 1.0 {
        assert 0.0 <= 1.0 - q <= 1.0;
        assert x * (1.0 - q) <= x * 1.0;
      }
    }
  }
}
