/**
 * The shift-overlap engine of aggregate_player_data: every pair of shifts of
 * one game and period that share ice time is matched with each strength
 * segment they both meet; the shared seconds become pair overlap rows, the
 * first shift's share of the segment becomes time-on-ice rows split by game
 * state, and 5-on-5 faceoffs at the start of a segment become zone starts.
 * Games are processed ten at a time.
 */
module Overlap {
  import opened Wrappers
  import opened Seqs
  import opened Strength
  import opened Segments

  /** One shift of one player: on the ice from `start` to `end` seconds of `period`. */
  datatype ShiftRow = ShiftRow(
    gameId: int, period: int, date: int, team: string, player: string, playerId: int,
    start: int, end: int)

  function Min(a: int, b: int): int { if a <= b then a else b }
  function Max(a: int, b: int): int { if a >= b then a else b }

  /**
   * The three-clause intersection test of interval x = [xs, xe) against
   * y = [ys, ye): y starts inside x, or y ends inside x, or y covers x.
   */
  predicate Meets(xs: int, xe: int, ys: int, ye: int)
  {
    (ys >= xs && ys < xe) || (ye > xs && ye <= xe) || (ye >= xe && ys <= xs)
  }

  /** Shift y's interval meets shift x's interval. */
  predicate PairTest(x: ShiftRow, y: ShiftRow)
  {
    Meets(x.start, x.end, y.start, y.end)
  }

  /**
   * For non-empty intervals the three-clause test holds exactly when the
   * intervals share a positive length of time.
   */
  lemma MeetsIffIntersect(xs: int, xe: int, ys: int, ye: int)
    requires xs < xe && ys < ye
    ensures Meets(xs, xe, ys, ye) <==> Min(xe, ye) - Max(xs, ys) > 0
  {
  }

  /** Hence the pair test is symmetric in its two shifts. */
  lemma PairTestSymmetric(x: ShiftRow, y: ShiftRow)
    requires x.start < x.end && y.start < y.end
    ensures PairTest(x, y) <==> PairTest(y, x)
  {
    MeetsIffIntersect(x.start, x.end, y.start, y.end);
    MeetsIffIntersect(y.start, y.end, x.start, x.end);
  }

  /** Seconds shared by three intervals: smallest end minus largest start. */
  function Overlap3(s1: int, e1: int, s2: int, e2: int, s3: int, e3: int): int
  {
    Min(Min(e1, e2), e3) - Max(Max(s1, s2), s3)
  }

  /**
   * The shared time never exceeds any one interval's length, and does not
   * depend on the order of the first two intervals.
   */
  lemma Overlap3Bounds(s1: int, e1: int, s2: int, e2: int, s3: int, e3: int)
    ensures Overlap3(s1, e1, s2, e2, s3, e3) <= e1 - s1
    ensures Overlap3(s1, e1, s2, e2, s3, e3) <= e2 - s2
    ensures Overlap3(s1, e1, s2, e2, s3, e3) <= e3 - s3
    ensures Overlap3(s1, e1, s2, e2, s3, e3) == Overlap3(s2, e2, s1, e1, s3, e3)
  {
  }

  /**
   * One-dimensional Helly property: three non-empty intervals that meet pairwise
   * share a positive length of time.
   */
  lemma PairwiseMeetingShare(s1: int, e1: int, s2: int, e2: int, s3: int, e3: int)
    requires s1 < e1 && s2 < e2 && s3 < e3
    requires Meets(s1, e1, s2, e2) && Meets(s1, e1, s3, e3) && Meets(s2, e2, s3, e3)
    ensures Overlap3(s1, e1, s2, e2, s3, e3) > 0
  {
    MeetsIffIntersect(s1, e1, s2, e2);
    MeetsIffIntersect(s1, e1, s3, e3);
    MeetsIffIntersect(s2, e2, s3, e3);
  }

  /** A state string seen from a team: flipped when `flip`; a missing state stays missing. */
  function FlipIf(s: Option<string>, flip: bool): (r: Option<string>)
    ensures r.Some? <==> s.Some?
    ensures r.Some? ==> r.value == ForActingTeam(s.value, flip)
  {
    if s.Some? then Some(ForActingTeam(s.value, flip)) else None
  }

  /** One row of pair overlap: x's shift, y's player, the segment window and the shared time. */
  datatype PairRow = PairRow(
    gameId: int, date: int, periodX: int, teamX: string, playerX: string, playerIdX: int,
    startX: int, endX: int, playerY: string, playerIdY: int,
    strength: Option<string>, sameTeam: bool, segStart: int, segEnd: int, overlap: int)

  /** Two shifts that are paired: same game, period and date, meeting, different players. */
  predicate Paired(x: ShiftRow, y: ShiftRow)
  {
    x.gameId == y.gameId && x.period == y.period && x.date == y.date &&
    PairTest(x, y) && x.playerId != y.playerId
  }

  /**
   * The overlap row of shifts x and y within segment `g`, if any: the segment
   * is of their game, its window for their period meets both shifts, and the
   * state is read from x's team (flipped unless x is on the home team).
   */
  function PairOn(x: ShiftRow, y: ShiftRow, g: Segment): Option<PairRow>
  {
    if !Paired(x, y) || g.gameId != x.gameId then None
    else
      var w := WindowFor(g, x.period);
      if w.None? then None
      else if !Meets(x.start, x.end, w.value.start, w.value.end) || !Meets(y.start, y.end, w.value.start, w.value.end) then None
      else Some(PairRow(
        x.gameId, x.date, x.period, x.team, x.player, x.playerId, x.start, x.end, y.player, y.playerId,
        FlipIf(g.strength, x.team != g.homeTeam), x.team == y.team,
        w.value.start, w.value.end,
        Overlap3(x.start, x.end, y.start, y.end, w.value.start, w.value.end)))
  }

  /**
   * What an overlap row promises: two different players of one game and
   * period, a shared time no longer than either shift or the segment window,
   * and a positive shared time whenever the shifts and the window are
   * non-empty (they meet pairwise). The state is the segment's, seen from x.
   */
  lemma PairOnFacts(x: ShiftRow, y: ShiftRow, g: Segment)
    requires PairOn(x, y, g).Some?
    ensures var r := PairOn(x, y, g).value;
      var w := WindowFor(g, x.period).value;
      r.playerIdX != r.playerIdY && r.gameId == g.gameId == y.gameId && x.period == y.period &&
      r.overlap <= x.end - x.start && r.overlap <= y.end - y.start && r.overlap <= w.end - w.start &&
      (x.start < x.end && y.start < y.end && w.start < w.end ==> r.overlap > 0) &&
      (r.sameTeam <==> x.team == y.team) &&
      (x.team == g.homeTeam ==> r.strength == g.strength)
  {
    var w := WindowFor(g, x.period).value;
    Overlap3Bounds(x.start, x.end, y.start, y.end, w.start, w.end);
    if x.start < x.end && y.start < y.end && w.start < w.end {
      PairwiseMeetingShare(x.start, x.end, y.start, y.end, w.start, w.end);
    }
  }

  /**
   * Swapping the two shifts of a pair of non-empty shifts keeps the row and
   * its shared time.
   */
  lemma PairOnSymmetric(x: ShiftRow, y: ShiftRow, g: Segment)
    requires x.start < x.end && y.start < y.end
    ensures PairOn(x, y, g).Some? <==> PairOn(y, x, g).Some?
    ensures PairOn(x, y, g).Some? ==> PairOn(x, y, g).value.overlap == PairOn(y, x, g).value.overlap
  {
    PairTestSymmetric(x, y);
    if PairOn(x, y, g).Some? {
      var w := WindowFor(g, x.period).value;
      Overlap3Bounds(x.start, x.end, y.start, y.end, w.start, w.end);
    }
  }

  /** Two shifts [0, 1200) and [600, 900) inside a whole-period segment share 300 seconds. */
  lemma OverlapExample()
    ensures var x := ShiftRow(1, 1, 20190101, "BOS", "A", 1, 0, 1200);
      var y := ShiftRow(1, 1, 20190101, "NYR", "B", 2, 600, 900);
      var g := Segment(1, 1, Some("5x5"), 0, 1200, "FAC", Some("Neu"), "BOS", "NYR");
      PairOn(x, y, g) == Some(PairRow(1, 20190101, 1, "BOS", "A", 1, 0, 1200, "B", 2,
        Some("5x5"), false, 0, 1200, 300))
  {
  }

  function AsSeq<T>(o: Option<T>): seq<T>
  {
    if o.Some? then [o.value] else []
  }

  /** Overlap rows of x and y over the segments. */
  function OnSegments(x: ShiftRow, y: ShiftRow, segs: seq<Segment>): seq<PairRow>
    decreases segs
  {
    if segs == [] then [] else AsSeq(PairOn(x, y, segs[0])) + OnSegments(x, y, segs[1..])
  }

  /** Overlap rows of x with every partner in `ys`. */
  function WithPartners(x: ShiftRow, ys: seq<ShiftRow>, segs: seq<Segment>): seq<PairRow>
    decreases ys
  {
    if ys == [] then [] else OnSegments(x, ys[0], segs) + WithPartners(x, ys[1..], segs)
  }

  /** Overlap rows of every shift of `xs` with every shift of `ys`. */
  function PairRows(xs: seq<ShiftRow>, ys: seq<ShiftRow>, segs: seq<Segment>): seq<PairRow>
    decreases xs
  {
    if xs == [] then [] else WithPartners(xs[0], ys, segs) + PairRows(xs[1..], ys, segs)
  }

  lemma {:induction false} OnSegmentsMembers(x: ShiftRow, y: ShiftRow, segs: seq<Segment>)
    ensures forall r :: r in OnSegments(x, y, segs) <==> exists g :: g in segs && PairOn(x, y, g) == Some(r)
    decreases segs
  {
    if segs != [] {
      OnSegmentsMembers(x, y, segs[1..]);
      assert forall g :: g in segs <==> g == segs[0] || g in segs[1..];
    }
  }

  lemma {:induction false} WithPartnersMembers(x: ShiftRow, ys: seq<ShiftRow>, segs: seq<Segment>)
    ensures forall r :: r in WithPartners(x, ys, segs) <==>
      exists y, g :: y in ys && g in segs && PairOn(x, y, g) == Some(r)
    decreases ys
  {
    if ys != [] {
      OnSegmentsMembers(x, ys[0], segs);
      WithPartnersMembers(x, ys[1..], segs);
      assert forall y :: y in ys <==> y == ys[0] || y in ys[1..];
    }
  }

  /**
   * The overlap table holds exactly the rows that some pair of shifts forms
   * with some segment: nothing is lost and nothing is invented.
   */
  lemma {:induction false} PairRowsMembers(xs: seq<ShiftRow>, ys: seq<ShiftRow>, segs: seq<Segment>)
    ensures forall r :: r in PairRows(xs, ys, segs) <==>
      exists x, y, g :: x in xs && y in ys && g in segs && PairOn(x, y, g) == Some(r)
    decreases xs
  {
    if xs != [] {
      WithPartnersMembers(xs[0], ys, segs);
      PairRowsMembers(xs[1..], ys, segs);
      assert forall x :: x in xs <==> x == xs[0] || x in xs[1..];
    }
  }

  // ---------------------------------------------------------------------
  // Time on ice split by game state.

  /** One (shift, segment) row of x's time on ice. */
  datatype ToiRow = ToiRow(
    gameId: int, period: int, team: string, player: string, playerId: int,
    start: int, end: int, date: int, strength: Option<string>, segStart: int, segEnd: int)

  function ToiOf(r: PairRow): ToiRow
  {
    ToiRow(r.gameId, r.periodX, r.teamX, r.playerX, r.playerIdX, r.startX, r.endX, r.date,
      r.strength, r.segStart, r.segEnd)
  }

  /** The distinct (shift, segment) rows of the overlap table, first occurrence kept. */
  function ToiRows(pairs: seq<PairRow>): seq<ToiRow>
  {
    Distinct(seq(|pairs|, i requires 0 <= i < |pairs| => ToiOf(pairs[i])))
  }

  /** Seconds of the shift inside the segment window. */
  function Toi(t: ToiRow): int
  {
    Min(t.end, t.segEnd) - Max(t.start, t.segStart)
  }

  /** A row's time on ice and its 5-on-5, power-play and penalty-kill buckets (missing when not that state). */
  datatype ToiBuckets = ToiBuckets(toi: int, even: Option<int>, pp: Option<int>, pk: Option<int>)

  function BucketsOf(t: ToiRow): ToiBuckets
  {
    var toi := Toi(t);
    ToiBuckets(toi,
      if t.strength == Some(EvenFive) then Some(toi) else None,
      if t.strength.Some? && t.strength.value in PowerPlay then Some(toi) else None,
      if t.strength.Some? && t.strength.value in PenaltyKill then Some(toi) else None)
  }

  /**
   * At most one bucket of a row is set, it is set exactly when the row's state
   * is of that kind, and it then holds the row's whole time on ice.
   */
  lemma BucketsExclusive(t: ToiRow)
    ensures var b := BucketsOf(t);
      (b.even.Some? <==> t.strength == Some(EvenFive)) &&
      (b.pp.Some? <==> t.strength.Some? && t.strength.value in PowerPlay) &&
      (b.pk.Some? <==> t.strength.Some? && t.strength.value in PenaltyKill) &&
      (b.even.Some? ==> b.pp.None? && b.pk.None? && b.even.value == b.toi) &&
      (b.pp.Some? ==> b.even.None? && b.pk.None? && b.pp.value == b.toi) &&
      (b.pk.Some? ==> b.even.None? && b.pp.None? && b.pk.value == b.toi)
  {
  }

  /** The time on ice of the row behind an overlap row is at least that row's shared time. */
  lemma OverlapWithinToi(x: ShiftRow, y: ShiftRow, g: Segment)
    requires PairOn(x, y, g).Some?
    ensures Toi(ToiOf(PairOn(x, y, g).value)) >= PairOn(x, y, g).value.overlap
  {
  }

  /** The columns summed per player: time on ice and its three state buckets. */
  datatype ToiColumn = TotalToi | EvenToi | PowerPlayToi | PenaltyKillToi

  /** A row's value in a column; a missing bucket adds 0 to the sum, as pandas `sum` skips NaN. */
  function RowValue(t: ToiRow, c: ToiColumn): int
  {
    var b := BucketsOf(t);
    match c
    case TotalToi => b.toi
    case EvenToi => b.even.OrElse(0)
    case PowerPlayToi => b.pp.OrElse(0)
    case PenaltyKillToi => b.pk.OrElse(0)
  }

  function ToiValue(c: ToiColumn): ToiRow -> int
  {
    (t: ToiRow) => RowValue(t, c)
  }

  /** Time on ice summed over the rows whose state is 5-on-5, power play or penalty kill. */
  function SplitToi(ts: seq<ToiRow>): int
    decreases ts
  {
    if ts == [] then 0
    else
      var s := ts[0].strength;
      (if s == Some(EvenFive) || (s.Some? && (s.value in PowerPlay || s.value in PenaltyKill)) then Toi(ts[0]) else 0)
      + SplitToi(ts[1..])
  }

  /** The three bucket totals add up to the time on ice spent in those states. */
  lemma {:induction false} BucketTotals(ts: seq<ToiRow>)
    ensures Total(ts, ToiValue(EvenToi)) + Total(ts, ToiValue(PowerPlayToi))
      + Total(ts, ToiValue(PenaltyKillToi)) == SplitToi(ts)
    decreases ts
  {
    if ts != [] {
      BucketTotals(ts[1..]);
      BucketsExclusive(ts[0]);
    }
  }

  /** Key of the per-player time-on-ice table: game, player, player id and date. */
  datatype ToiKey = ToiKey(gameId: int, player: string, playerId: int, date: int)

  function KeyOfToi(t: ToiRow): ToiKey
  {
    ToiKey(t.gameId, t.player, t.playerId, t.date)
  }

  /** One row of the per-player time-on-ice table. */
  datatype PlayerToi = PlayerToi(key: ToiKey, toi: int, even: int, pp: int, pk: int)

  function Cell(r: PlayerToi, c: ToiColumn): int
  {
    match c
    case TotalToi => r.toi
    case EvenToi => r.even
    case PowerPlayToi => r.pp
    case PenaltyKillToi => r.pk
  }

  /** One summed row per listed key. */
  function ToiGroups(ts: seq<ToiRow>, keys: seq<ToiKey>): (r: seq<PlayerToi>)
    ensures |r| == |keys| && forall i :: 0 <= i < |keys| ==> r[i].key == keys[i]
    decreases keys
  {
    if keys == [] then []
    else
      var k := keys[0];
      [PlayerToi(k, KeySum(ts, KeyOfToi, ToiValue(TotalToi), k), KeySum(ts, KeyOfToi, ToiValue(EvenToi), k),
        KeySum(ts, KeyOfToi, ToiValue(PowerPlayToi), k), KeySum(ts, KeyOfToi, ToiValue(PenaltyKillToi), k))]
      + ToiGroups(ts, keys[1..])
  }

  /** The time-on-ice rows summed per (game, player, player id, date), keys in order of first appearance. */
  function ToiTable(ts: seq<ToiRow>): seq<PlayerToi>
  {
    ToiGroups(ts, Distinct(Keys(ts, KeyOfToi)))
  }

  /** A column of the per-player table summed over its rows. */
  function ColumnTotal(rows: seq<PlayerToi>, c: ToiColumn): int
    decreases rows
  {
    if rows == [] then 0 else Cell(rows[0], c) + ColumnTotal(rows[1..], c)
  }

  lemma {:induction false} ToiGroupsTotal(ts: seq<ToiRow>, keys: seq<ToiKey>, c: ToiColumn)
    ensures ColumnTotal(ToiGroups(ts, keys), c) == KeysTotal(ts, KeyOfToi, ToiValue(c), keys)
    decreases keys
  {
    if keys != [] {
      ToiGroupsTotal(ts, keys[1..], c);
    }
  }

  /**
   * The per-player table loses no time: each column of it sums to the
   * column's total over the time-on-ice rows, and a player's bucket columns
   * add up to the time spent at 5-on-5, on the power play and on the penalty kill.
   */
  lemma ToiTableConserves(ts: seq<ToiRow>)
    ensures forall c :: ColumnTotal(ToiTable(ts), c) == Total(ts, ToiValue(c))
    ensures ColumnTotal(ToiTable(ts), EvenToi) + ColumnTotal(ToiTable(ts), PowerPlayToi)
      + ColumnTotal(ToiTable(ts), PenaltyKillToi) == SplitToi(ts)
  {
    var keys := Distinct(Keys(ts, KeyOfToi));
    forall c ensures ColumnTotal(ToiTable(ts), c) == Total(ts, ToiValue(c)) {
      ToiGroupsTotal(ts, keys, c);
      forall i | 0 <= i < |ts| ensures KeyOfToi(ts[i]) in keys {
        assert Keys(ts, KeyOfToi)[i] == KeyOfToi(ts[i]);
      }
      GroupedTotal(ts, KeyOfToi, ToiValue(c), keys);
    }
    BucketTotals(ts);
  }

  /** Key of the pair overlap table: game, both players, the state and whether they are teammates. */
  datatype PairKey = PairKey(gameId: int, playerX: string, playerIdX: int, playerY: string, playerIdY: int,
    strength: string, sameTeam: bool)

  /** The key of an overlap row (a missing state reads as the empty string; such rows are dropped first). */
  function KeyOfPair(r: PairRow): PairKey
  {
    PairKey(r.gameId, r.playerX, r.playerIdX, r.playerY, r.playerIdY, r.strength.OrElse(""), r.sameTeam)
  }

  function OverlapOf(r: PairRow): int { r.overlap }

  predicate HasState(r: PairRow) { r.strength.Some? }

  /** One row of the pair overlap table. */
  datatype PairTotal = PairTotal(key: PairKey, overlap: int)

  function PairGroups(rows: seq<PairRow>, keys: seq<PairKey>): (r: seq<PairTotal>)
    ensures |r| == |keys| && forall i :: 0 <= i < |keys| ==> r[i].key == keys[i]
    decreases keys
  {
    if keys == [] then [] else [PairTotal(keys[0], KeySum(rows, KeyOfPair, OverlapOf, keys[0]))] + PairGroups(rows, keys[1..])
  }

  /**
   * The overlap rows summed per key; rows without a state are dropped, as
   * `groupby` drops a NaN key.
   */
  function PairTable(pairs: seq<PairRow>): seq<PairTotal>
  {
    var kept := Filter(pairs, HasState);
    PairGroups(kept, Distinct(Keys(kept, KeyOfPair)))
  }

  function OverlapTotal(rows: seq<PairTotal>): int
    decreases rows
  {
    if rows == [] then 0 else rows[0].overlap + OverlapTotal(rows[1..])
  }

  lemma {:induction false} PairGroupsTotal(rows: seq<PairRow>, keys: seq<PairKey>)
    ensures OverlapTotal(PairGroups(rows, keys)) == KeysTotal(rows, KeyOfPair, OverlapOf, keys)
    decreases keys
  {
    if keys != [] {
      PairGroupsTotal(rows, keys[1..]);
    }
  }

  /**
   * The pair overlap table keeps every second of shared time whose state is
   * known and nothing else, and each of its keys is the key of an overlap row
   * with a known state.
   */
  lemma PairTableFacts(pairs: seq<PairRow>)
    ensures OverlapTotal(PairTable(pairs)) == Total(Filter(pairs, HasState), OverlapOf)
    ensures forall t :: t in PairTable(pairs) ==> exists r :: r in pairs && r.strength == Some(t.key.strength) && KeyOfPair(r) == t.key
  {
    var kept := Filter(pairs, HasState);
    var keys := Distinct(Keys(kept, KeyOfPair));
    PairGroupsTotal(kept, keys);
    forall i | 0 <= i < |kept| ensures KeyOfPair(kept[i]) in keys {
      assert Keys(kept, KeyOfPair)[i] == KeyOfPair(kept[i]);
    }
    GroupedTotal(kept, KeyOfPair, OverlapOf, keys);
    forall t | t in PairTable(pairs)
      ensures exists r :: r in pairs && r.strength == Some(t.key.strength) && KeyOfPair(r) == t.key
    {
      var i :| 0 <= i < |PairTable(pairs)| && PairTable(pairs)[i] == t;
      assert t.key in Keys(kept, KeyOfPair);
      var j :| 0 <= j < |kept| && Keys(kept, KeyOfPair)[j] == t.key;
      assert kept[j] in kept;
    }
  }

  // ---------------------------------------------------------------------
  // Faceoff zone starts.

  /**
   * Zone of a 5-on-5 faceoff for a player of `team`, from the home team's zone:
   * "O"/"D" as it is for the home team and mirrored for the away team, "N" in
   * the neutral zone. Later rules override earlier ones, as the assignments do.
   */
  function ZoneOf(team: string, g: Segment, strength: Option<string>): (z: Option<string>)
  {
    var fac := g.event == "FAC" && strength == Some(EvenFive);
    if g.homeZone == Some("Neu") && fac then Some("N")
    else if team == g.awayTeam && g.homeZone == Some("Off") && fac then Some("D")
    else if team == g.awayTeam && g.homeZone == Some("Def") && fac then Some("O")
    else if team == g.homeTeam && g.homeZone == Some("Def") && fac then Some("D")
    else if team == g.homeTeam && g.homeZone == Some("Off") && fac then Some("O")
    else None
  }

  /** The state of segment `g` as seen by a player of `team` (flipped for the away team). */
  function StateFor(team: string, g: Segment): Option<string>
  {
    FlipIf(g.strength, team == g.awayTeam)
  }

  function MirrorZone(z: string): string
  {
    if z == "O" then "D" else if z == "D" then "O" else z
  }

  /**
   * At one faceoff the home and away players see mirrored zones: an offensive
   * start for one side is a defensive start for the other, and a neutral start
   * is neutral for both.
   */
  lemma ZoneMirror(g: Segment)
    requires g.homeTeam != g.awayTeam
    ensures var h := ZoneOf(g.homeTeam, g, StateFor(g.homeTeam, g));
      var a := ZoneOf(g.awayTeam, g, StateFor(g.awayTeam, g));
      h.Some? <==> a.Some?
    ensures var h := ZoneOf(g.homeTeam, g, StateFor(g.homeTeam, g));
      var a := ZoneOf(g.awayTeam, g, StateFor(g.awayTeam, g));
      h.Some? ==> a.value == MirrorZone(h.value)
  {
    FlipOfKnownState(EvenFive);
    if g.strength.Some? {
      ReverseInvolution(g.strength.value);
    }
  }

  /** One counted zone start of a player. */
  datatype ZoneStart = ZoneStart(gameId: int, date: int, player: string, playerId: int, zone: string)

  /**
   * Zone start of shift `s` at segment `g` when the segment starts within the
   * shift, as written: the merge is on the game only and periods are not compared.
   */
  function ZoneStartAsWritten(s: ShiftRow, g: Segment): (r: Option<ZoneStart>)
    ensures r.Some? ==> (g.gameId == s.gameId && s.start <= g.start <= s.end
      && g.event == "FAC" && StateFor(s.team, g) == Some(EvenFive))
    ensures r.Some? ==> r.value.gameId == s.gameId && r.value.playerId == s.playerId && r.value.zone in {"O", "D", "N"}
  {
    if g.gameId != s.gameId || !(s.start <= g.start <= s.end) then None
    else
      var z := ZoneOf(s.team, g, StateFor(s.team, g));
      if z.Some? then Some(ZoneStart(s.gameId, s.date, s.player, s.playerId, z.value)) else None
  }

  /** Zone start of shift `s` at segment `g`, matching the segment's period to the shift's. */
  function ZoneStartOf(s: ShiftRow, g: Segment): (r: Option<ZoneStart>)
    ensures r.Some? ==> (g.period == s.period && g.gameId == s.gameId && s.start <= g.start <= s.end
      && g.event == "FAC" && StateFor(s.team, g) == Some(EvenFive))
    ensures r.Some? ==> r.value.playerId == s.playerId && r.value.zone in {"O", "D", "N"}
  {
    if g.period != s.period then None else ZoneStartAsWritten(s, g)
  }

  function ZoneStartsWith(shifts: seq<ShiftRow>, segs: seq<Segment>, f: (ShiftRow, Segment) -> Option<ZoneStart>): seq<ZoneStart>
    decreases shifts
  {
    if shifts == [] then [] else AtShift(shifts[0], segs, f) + ZoneStartsWith(shifts[1..], segs, f)
  }

  function AtShift(s: ShiftRow, segs: seq<Segment>, f: (ShiftRow, Segment) -> Option<ZoneStart>): seq<ZoneStart>
    decreases segs
  {
    if segs == [] then [] else AsSeq(f(s, segs[0])) + AtShift(s, segs[1..], f)
  }

  /** Number of zone starts of one kind for a player in a game (a grouped count). */
  function ZoneStartCount(zs: seq<ZoneStart>, gameId: int, playerId: int, zone: string): nat
  {
    Count(zs, (z: ZoneStart) => z.gameId == gameId && z.playerId == playerId && z.zone == zone)
  }

  /**
   * As written, a faceoff of period 1 counts as a zone start for a shift of
   * period 2 that spans the same clock seconds; matching periods it does not.
   */
  lemma ZoneStartIgnoresPeriod()
    ensures var s := ShiftRow(1, 2, 20190101, "BOS", "A", 7, 100, 150);
      var g := Segment(1, 1, Some("5x5"), 120, 200, "FAC", Some("Off"), "BOS", "NYR");
      ZoneStartCount(ZoneStartsWith([s], [g], ZoneStartAsWritten), 1, 7, "O") == 1 &&
      ZoneStartCount(ZoneStartsWith([s], [g], ZoneStartOf), 1, 7, "O") == 0
  {
    var s := ShiftRow(1, 2, 20190101, "BOS", "A", 7, 100, 150);
    var g := Segment(1, 1, Some("5x5"), 120, 200, "FAC", Some("Off"), "BOS", "NYR");
    var z := ZoneStart(1, 20190101, "A", 7, "O");
    assert ZoneStartAsWritten(s, g) == Some(z);
    assert AtShift(s, [g], ZoneStartAsWritten) == [z] + AtShift(s, [], ZoneStartAsWritten);
    assert ZoneStartsWith([s], [g], ZoneStartAsWritten) == [z];
    assert ZoneStartOf(s, g) == None;
    assert AtShift(s, [g], ZoneStartOf) == [] + AtShift(s, [], ZoneStartOf);
    assert ZoneStartsWith([s], [g], ZoneStartOf) == [];
  }

  lemma {:induction false} AtShiftMembers(s: ShiftRow, segs: seq<Segment>, f: (ShiftRow, Segment) -> Option<ZoneStart>)
    ensures forall z :: z in AtShift(s, segs, f) <==> exists g :: g in segs && f(s, g) == Some(z)
    decreases segs
  {
    if segs != [] {
      AtShiftMembers(s, segs[1..], f);
      assert forall g :: g in segs <==> g == segs[0] || g in segs[1..];
    }
  }

  /**
   * The zone starts are exactly those that some shift forms with some
   * segment, whichever zone-start rule `f` is used.
   */
  lemma {:induction false} ZoneStartsMembers(shifts: seq<ShiftRow>, segs: seq<Segment>, f: (ShiftRow, Segment) -> Option<ZoneStart>)
    ensures forall z :: z in ZoneStartsWith(shifts, segs, f) <==>
      exists s, g :: s in shifts && g in segs && f(s, g) == Some(z)
    decreases shifts
  {
    if shifts != [] {
      AtShiftMembers(shifts[0], segs, f);
      ZoneStartsMembers(shifts[1..], segs, f);
      assert forall s :: s in shifts <==> s == shifts[0] || s in shifts[1..];
    }
  }

  // ---------------------------------------------------------------------
  // Ten games at a time.

  const ChunkSize: nat := 10

  /** Number of chunks of ten game ids (rounded up). */
  function NumChunks(n: nat): nat
  {
    (n + 9) / 10
  }

  /** The chunks cover all ids, and every chunk starts at an id. */
  lemma NumChunksCover(n: nat, i: nat)
    ensures NumChunks(n) * ChunkSize >= n
    ensures i < NumChunks(n) ==> i * ChunkSize < n
  {
  }

  /** Game ids of chunk `i`. */
  function ChunkIds(ids: seq<int>, i: nat): (c: seq<int>)
    requires i < NumChunks(|ids|)
    ensures forall id :: id in c ==> id in ids
  {
    NumChunksCover(|ids|, i);
    var hi := Min((i + 1) * ChunkSize, |ids|);
    ids[i * ChunkSize .. hi]
  }

  /** Outputs of one chunk: overlap rows, time-on-ice rows and zone starts. */
  datatype ChunkOutput = ChunkOutput(pairs: seq<PairTotal>, toi: seq<PlayerToi>, zones: seq<ZoneStart>)

  /**
   * The engine run on the shifts and play-by-play rows of the games in
   * `chunk`: the pair overlap table, the per-player time-on-ice table and the
   * zone starts, matched to faceoffs on the game only, as written.
   */
  function ProcessChunk(shifts: seq<ShiftRow>, plays: seq<PbpRow>, chunk: seq<int>): ChunkOutput
  {
    var sh := Filter(shifts, (s: ShiftRow) => s.gameId in chunk);
    var segs := BuildSegments(Filter(plays, (p: PbpRow) => p.gameId in chunk));
    var pairs := PairRows(sh, sh, segs);
    ChunkOutput(PairTable(pairs), ToiTable(ToiRows(pairs)), ZoneStartsWith(sh, segs, ZoneStartAsWritten))
  }

  /** The chunk step of the engine for a given shift table and play-by-play table. */
  function ChunkProcess(shifts: seq<ShiftRow>, plays: seq<PbpRow>): seq<int> -> ChunkOutput
  {
    chunk => ProcessChunk(shifts, plays, chunk)
  }

  /** The three tables after the first `n` chunks, each the concatenation of the chunks' outputs. */
  function Chunked(ids: seq<int>, n: nat, process: seq<int> -> ChunkOutput): ChunkOutput
    requires n <= NumChunks(|ids|)
  {
    if n == 0 then ChunkOutput([], [], [])
    else
      var prev := Chunked(ids, n - 1, process);
      var c := process(ChunkIds(ids, n - 1));
      ChunkOutput(prev.pairs + c.pairs, prev.toi + c.toi, prev.zones + c.zones)
  }

  /** The distinct game ids of the shift table, in order of first appearance. */
  function GameIds(shifts: seq<ShiftRow>): seq<int>
  {
    Distinct(seq(|shifts|, i requires 0 <= i < |shifts| => shifts[i].gameId))
  }

  /** Runs `process` on each chunk of ten ids in turn, appending its three tables to the totals. */
  method ConcatChunks(ids: seq<int>, process: seq<int> -> ChunkOutput) returns (out: ChunkOutput)
    ensures out == Chunked(ids, NumChunks(|ids|), process)
  {
    var n := NumChunks(|ids|);
    out := ChunkOutput([], [], []);
    var i := 0;
    while i < n
      invariant i <= n
      invariant out == Chunked(ids, i, process)
    {
      var c := process(ChunkIds(ids, i));
      out := ChunkOutput(out.pairs + c.pairs, out.toi + c.toi, out.zones + c.zones);
      i := i + 1;
    }
  }

  /** The engine over all games of the shift table, ten games at a time. */
  method AggregateChunks(shifts: seq<ShiftRow>, plays: seq<PbpRow>) returns (out: ChunkOutput)
    ensures out == Chunked(GameIds(shifts), NumChunks(|GameIds(shifts)|), ChunkProcess(shifts, plays))
  {
    out := ConcatChunks(GameIds(shifts), ChunkProcess(shifts, plays));
  }

  /** Every game id lies in exactly one chunk. */
  lemma ChunksPartition(ids: seq<int>, k: nat)
    requires k < |ids|
    ensures k / ChunkSize < NumChunks(|ids|) && ids[k] in ChunkIds(ids, k / ChunkSize)
  {
    var i := k / ChunkSize;
    assert i * ChunkSize <= k < (i + 1) * ChunkSize;
    var c := ChunkIds(ids, i);
    assert c[k - i * ChunkSize] == ids[k];
  }

  /**
   * An overlap row comes from the shift table: its game is in the list and
   * its two players have shifts of that game and one period, and differ.
   */
  ghost predicate PairFromShifts(t: PairTotal, shifts: seq<ShiftRow>, ids: seq<int>)
  {
    t.key.gameId in ids &&
    exists x, y :: x in shifts && y in shifts && x.gameId == y.gameId == t.key.gameId && x.period == y.period &&
      x.playerId == t.key.playerIdX && y.playerId == t.key.playerIdY && x.playerId != y.playerId
  }

  /**
   * A zone start comes from the shift table: its game is in the list, its
   * zone is O, D or N, and a shift of its game and player spans the start of
   * a 5-on-5 faceoff segment of that game, in any period.
   */
  ghost predicate ZoneFromShifts(z: ZoneStart, shifts: seq<ShiftRow>, ids: seq<int>)
  {
    z.gameId in ids && z.zone in {"O", "D", "N"} &&
    exists s, g: Segment :: s in shifts && s.gameId == z.gameId == g.gameId && s.playerId == z.playerId &&
      s.start <= g.start <= s.end && g.event == "FAC" && StateFor(s.team, g) == Some(EvenFive)
  }

  /** One chunk's overlap rows come from the shift table. */
  lemma ChunkPairsFromShifts(shifts: seq<ShiftRow>, plays: seq<PbpRow>, chunk: seq<int>, ids: seq<int>)
    requires forall id :: id in chunk ==> id in ids
    ensures forall t :: t in ProcessChunk(shifts, plays, chunk).pairs ==> PairFromShifts(t, shifts, ids)
  {
    var sh := Filter(shifts, (s: ShiftRow) => s.gameId in chunk);
    var segs := BuildSegments(Filter(plays, (p: PbpRow) => p.gameId in chunk));
    var pairs := PairRows(sh, sh, segs);
    PairRowsMembers(sh, sh, segs);
    PairTableFacts(pairs);
    forall t | t in PairTable(pairs)
      ensures PairFromShifts(t, shifts, ids)
    {
      var r :| r in pairs && KeyOfPair(r) == t.key;
      var x, y, g :| x in sh && y in sh && g in segs && PairOn(x, y, g) == Some(r);
      assert x.gameId in chunk;
    }
  }

  /** One chunk's zone starts come from the shift table. */
  lemma ChunkZonesFromShifts(shifts: seq<ShiftRow>, plays: seq<PbpRow>, chunk: seq<int>, ids: seq<int>)
    requires forall id :: id in chunk ==> id in ids
    ensures forall z :: z in ProcessChunk(shifts, plays, chunk).zones ==> ZoneFromShifts(z, shifts, ids)
  {
    var sh := Filter(shifts, (s: ShiftRow) => s.gameId in chunk);
    var segs := BuildSegments(Filter(plays, (p: PbpRow) => p.gameId in chunk));
    ZoneStartsMembers(sh, segs, ZoneStartAsWritten);
    forall z | z in ZoneStartsWith(sh, segs, ZoneStartAsWritten)
      ensures ZoneFromShifts(z, shifts, ids)
    {
      var s, g :| s in sh && g in segs && ZoneStartAsWritten(s, g) == Some(z);
      assert s.gameId in chunk;
    }
  }

  /** Every overlap row of the chunked run comes from the shift table. */
  lemma {:induction false} ChunkedPairsFromShifts(shifts: seq<ShiftRow>, plays: seq<PbpRow>, ids: seq<int>, n: nat)
    requires n <= NumChunks(|ids|)
    ensures forall t :: t in Chunked(ids, n, ChunkProcess(shifts, plays)).pairs ==> PairFromShifts(t, shifts, ids)
    decreases n
  {
    if n > 0 {
      ChunkedPairsFromShifts(shifts, plays, ids, n - 1);
      ChunkPairsFromShifts(shifts, plays, ChunkIds(ids, n - 1), ids);
      assert ChunkProcess(shifts, plays)(ChunkIds(ids, n - 1)) == ProcessChunk(shifts, plays, ChunkIds(ids, n - 1));
    }
  }

  /**
   * Every zone start of the chunked run comes from the shift table; as
   * written, the faceoff segment may lie in another period.
   */
  lemma {:induction false} ChunkedZonesFromShifts(shifts: seq<ShiftRow>, plays: seq<PbpRow>, ids: seq<int>, n: nat)
    requires n <= NumChunks(|ids|)
    ensures forall z :: z in Chunked(ids, n, ChunkProcess(shifts, plays)).zones ==> ZoneFromShifts(z, shifts, ids)
    decreases n
  {
    if n > 0 {
      ChunkedZonesFromShifts(shifts, plays, ids, n - 1);
      ChunkZonesFromShifts(shifts, plays, ChunkIds(ids, n - 1), ids);
      assert ChunkProcess(shifts, plays)(ChunkIds(ids, n - 1)) == ProcessChunk(shifts, plays, ChunkIds(ids, n - 1));
    }
  }
}
