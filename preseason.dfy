/**
 * Preseason predictions: each player's and each team's rating for a season
 * extrapolated from the previous seasons' ratings by fitted linear weights,
 * as PreseasonRatingsUpdater computes them before a season starts.
 */
module Preseason {
  import opened Wrappers
  import opened Seqs

  // ---------------------------------------------------------------------
  // Season rating rows
  // ---------------------------------------------------------------------

  /** The merge key of a player row: name, id and position. */
  datatype PlayerKey = PlayerKey(player: string, playerId: int, position: string)

  /** One player-season of ratings: the named columns (`TOI`, `GI60`, `GC60_5v5`, ...). */
  datatype RatingRow = RatingRow(key: PlayerKey, season: int, columns: map<string, Option<real>>)

  /** The rows of one season, in order (`df.loc[df['Season'] == season]`), in a table whose season column is `seasonOf`. */
  function RowsOfSeason<T(!new)>(rows: seq<T>, seasonOf: T -> int, season: int): (r: seq<T>)
    ensures forall x :: x in r <==> x in rows && seasonOf(x) == season
    decreases rows
  {
    if rows == [] then []
    else if seasonOf(rows[0]) == season then [rows[0]] + RowsOfSeason(rows[1..], seasonOf, season)
    else RowsOfSeason(rows[1..], seasonOf, season)
  }

  /** The first row with a key in a season: the row a left merge on the key finds. */
  function FirstOfSeason<T(!new), K(==)>(rows: seq<T>, keyOf: T -> K, seasonOf: T -> int, key: K, season: int): (r: Option<T>)
    ensures r.Some? ==> r.value in rows && keyOf(r.value) == key && seasonOf(r.value) == season
    ensures r.None? <==> forall x :: x in rows ==> !(keyOf(x) == key && seasonOf(x) == season)
    decreases rows
  {
    if rows == [] then None
    else if keyOf(rows[0]) == key && seasonOf(rows[0]) == season then Some(rows[0])
    else FirstOfSeason(rows[1..], keyOf, seasonOf, key, season)
  }

  /** Restricting to a season first does not change which row is first in that season. */
  lemma {:induction false} FirstOfSeasonRows<T(!new), K>(rows: seq<T>, keyOf: T -> K, seasonOf: T -> int, key: K, season: int)
    ensures FirstOfSeason(RowsOfSeason(rows, seasonOf, season), keyOf, seasonOf, key, season)
      == FirstOfSeason(rows, keyOf, seasonOf, key, season)
    decreases rows
  {
    if rows != [] {
      FirstOfSeasonRows(rows[1..], keyOf, seasonOf, key, season);
    }
  }

  function RatingSeason(r: RatingRow): int { r.season }
  function RatingKey(r: RatingRow): PlayerKey { r.key }

  /** The player rows of one season. */
  function SeasonRows(rows: seq<RatingRow>, season: int): seq<RatingRow>
  {
    RowsOfSeason(rows, RatingSeason, season)
  }

  /** The rows of one position, in order (`ratings.loc[ratings['Position'] == pos]`). */
  function PositionRows(rows: seq<RatingRow>, position: string): (r: seq<RatingRow>)
    ensures forall x :: x in r <==> x in rows && x.key.position == position
    decreases rows
  {
    if rows == [] then []
    else if rows[0].key.position == position then [rows[0]] + PositionRows(rows[1..], position)
    else PositionRows(rows[1..], position)
  }

  /** The first row of a player in a season. */
  function FirstRow(rows: seq<RatingRow>, key: PlayerKey, season: int): Option<RatingRow>
  {
    FirstOfSeason(rows, RatingKey, RatingSeason, key, season)
  }

  /** The keys of a table, in order. */
  function Keys(rows: seq<RatingRow>): (ks: seq<PlayerKey>)
    ensures |ks| == |rows| && forall i :: 0 <= i < |rows| ==> ks[i] == rows[i].key
    decreases rows
  {
    if rows == [] then [] else [rows[0].key] + Keys(rows[1..])
  }

  // ---------------------------------------------------------------------
  // One metric for one position: _predict_players
  // ---------------------------------------------------------------------

  /** Scale of a prior season's feature: metric * ice time / 50000. */
  const FeatureScale: real := 50000.0

  /** `feature_k` of a row: the metric times its ice time over 50000; missing when either is. */
  function Feature(r: RatingRow, metric: string, toiCol: string): (f: Option<real>)
    ensures f.Some? <==> Column(r.columns, metric).Some? && Column(r.columns, toiCol).Some?
  {
    var m := Column(r.columns, metric);
    var t := Column(r.columns, toiCol);
    if m.Some? && t.Some? then Some(m.value * t.value / FeatureScale) else None
  }

  /** The feature a player had `season`, through a left merge: missing without a row there. */
  function PriorFeature(rows: seq<RatingRow>, key: PlayerKey, season: int, metric: string, toiCol: string): Option<real>
  {
    var r := FirstRow(rows, key, season);
    if r.Some? then Feature(r.value, metric, toiCol) else None
  }

  /** The weights of a player metric: row k holds an intercept and k coefficients. */
  predicate PlayerWeights(w: seq<seq<real>>)
  {
    |w| >= 4 && |w[1]| >= 2 && |w[2]| >= 3 && |w[3]| >= 4
  }

  /**
   * A linear model over the first |fs| features: coef[0] + sum of
   * coef[j + 1] * fs[j]; missing when any feature is (NaN arithmetic).
   */
  function Linear(coef: seq<real>, fs: seq<Option<real>>): (x: Option<real>)
    requires |coef| > |fs|
    ensures x.Some? <==> forall j :: 0 <= j < |fs| ==> fs[j].Some?
    decreases |fs|
  {
    if fs == [] then Some(coef[0])
    else
      var rest := Linear(coef, fs[..|fs| - 1]);
      var last := fs[|fs| - 1];
      assert forall j :: 0 <= j < |fs| - 1 ==> fs[..|fs| - 1][j] == fs[j];
      if rest.Some? && last.Some? then Some(rest.value + last.value * coef[|fs|]) else None
  }

  /**
   * How many consecutive prior seasons a prediction uses: 1 without a
   * season-2 feature (season-3 is then ignored), 2 without a season-3
   * feature, else 3.
   */
  function History(f2: Option<real>, f3: Option<real>): (k: nat)
    ensures 1 <= k <= 3
  {
    if f2.None? then 1 else if f3.None? then 2 else 3
  }

  /** The three branches of `_predict_players`, as the source writes them out. */
  function Forecast(f1: Option<real>, f2: Option<real>, f3: Option<real>, w: seq<seq<real>>): Option<real>
    requires PlayerWeights(w)
  {
    if f2.None? then
      if f1.Some? then Some(w[1][0] + f1.value * w[1][1]) else None
    else if f3.None? then
      if f1.Some? then Some(w[2][0] + f1.value * w[2][1] + f2.value * w[2][2]) else None
    else
      if f1.Some? then Some(w[3][0] + f1.value * w[3][1] + f2.value * w[3][2] + f3.value * w[3][3]) else None
  }

  /**
   * Branch selection: the prediction is the linear model of weights row k
   * over the first k features, k being the history length; in particular a
   * season-3 feature is ignored when season-2 is missing.
   */
  lemma {:induction false} ForecastUsesHistory(f1: Option<real>, f2: Option<real>, f3: Option<real>, w: seq<seq<real>>)
    requires PlayerWeights(w)
    ensures var k := History(f2, f3);
      Forecast(f1, f2, f3, w) == Linear(w[k], [f1, f2, f3][..k])
    ensures f2.None? ==> Forecast(f1, f2, f3, w) == Forecast(f1, None, None, w)
  {
    var k := History(f2, f3);
    var x := Forecast(f1, f2, f3, w);
    var y := Linear(w[k], [f1, f2, f3][..k]);
    if f2.None? {
      assert [f1, f2, f3][..1] == [f1];
      LinearOfOne(w[1], f1);
    } else if f3.None? {
      assert [f1, f2, f3][..2] == [f1] + [f2];
      LinearOfOne(w[2], f1);
      LinearSnoc(w[2], [f1], f2);
    } else {
      assert [f1, f2, f3][..3] == [f1, f2] + [f3];
      assert [f1, f2] == [f1] + [f2];
      LinearOfOne(w[3], f1);
      LinearSnoc(w[3], [f1], f2);
      LinearSnoc(w[3], [f1, f2], f3);
    }
    assert x.Some? <==> y.Some?;
    if x.Some? {
      assert x.value == y.value;
      assert x == Some(x.value) && y == Some(y.value);
    }
  }

  lemma {:induction false} LinearOfOne(coef: seq<real>, f1: Option<real>)
    requires |coef| >= 2
    ensures Linear(coef, [f1]) == if f1.Some? then Some(coef[0] + f1.value * coef[1]) else None
  {
    assert [] + [f1] == [f1];
    LinearSnoc(coef, [], f1);
    if f1.Some? {
      var x := Linear(coef, [f1]);
      assert x.Some? && x.value == coef[0] + f1.value * coef[1];
      assert x == Some(x.value);
    }
  }

  /** Appending a feature adds its term to the model. */
  lemma {:induction false} LinearSnoc(coef: seq<real>, fs: seq<Option<real>>, f: Option<real>)
    requires |coef| >= |fs| + 2
    ensures Linear(coef, fs + [f]).Some? <==> Linear(coef, fs).Some? && f.Some?
    ensures Linear(coef, fs + [f]).Some? ==> Linear(coef, fs + [f]).value == Linear(coef, fs).value + f.value * coef[|fs| + 1]
  {
    assert (fs + [f])[..|fs|] == fs;
  }

  /** A player's predicted value for one metric. */
  datatype Prediction = Prediction(key: PlayerKey, value: Option<real>)

  /**
   * `_predict_players`: one prediction per season-1 row, in order, with
   * season-2 and season-3 features left-merged on the player key.
   */
  function PredictPlayers(rows: seq<RatingRow>, metric: string, toiCol: string, w: seq<seq<real>>, season: int): (ps: seq<Prediction>)
    requires PlayerWeights(w)
    ensures |ps| == |SeasonRows(rows, season - 1)|
    ensures forall i :: 0 <= i < |ps| ==> ps[i].key == SeasonRows(rows, season - 1)[i].key
  {
    PredictRows(SeasonRows(rows, season - 1), rows, metric, toiCol, w, season)
  }

  function PredictRows(base: seq<RatingRow>, rows: seq<RatingRow>, metric: string, toiCol: string,
                       w: seq<seq<real>>, season: int): (ps: seq<Prediction>)
    requires PlayerWeights(w)
    ensures |ps| == |base| && forall i :: 0 <= i < |base| ==> ps[i].key == base[i].key
    decreases base
  {
    if base == [] then []
    else
      var r := base[0];
      var x := Forecast(Feature(r, metric, toiCol), PriorFeature(rows, r.key, season - 2, metric, toiCol),
                        PriorFeature(rows, r.key, season - 3, metric, toiCol), w);
      [Prediction(r.key, x)] + PredictRows(base[1..], rows, metric, toiCol, w, season)
  }

  /** The value a left merge on the key picks up from a prediction table. */
  function Lookup(ps: seq<Prediction>, key: PlayerKey): (v: Option<real>)
    ensures (forall p :: p in ps ==> p.key != key) ==> v.None?
    decreases ps
  {
    if ps == [] then None
    else if ps[0].key == key then ps[0].value
    else Lookup(ps[1..], key)
  }

  /** The forecast of the player's first season-1 row; missing without one. */
  function PlayerForecast(rows: seq<RatingRow>, metric: string, toiCol: string, w: seq<seq<real>>,
                          season: int, key: PlayerKey): Option<real>
    requires PlayerWeights(w)
  {
    var r := FirstRow(rows, key, season - 1);
    if r.None? then None
    else Forecast(Feature(r.value, metric, toiCol), PriorFeature(rows, key, season - 2, metric, toiCol),
                  PriorFeature(rows, key, season - 3, metric, toiCol), w)
  }

  /**
   * Who gets a prediction: a player has a row in the table exactly when
   * they have a season-1 row, and the value merged for them is the forecast
   * from their season-1, season-2 and season-3 features.
   */
  lemma {:induction false} PredictionOfPlayer(rows: seq<RatingRow>, metric: string, toiCol: string,
                                              w: seq<seq<real>>, season: int, key: PlayerKey)
    requires PlayerWeights(w)
    ensures (exists p :: p in PredictPlayers(rows, metric, toiCol, w, season) && p.key == key)
      <==> FirstRow(rows, key, season - 1).Some?
    ensures Lookup(PredictPlayers(rows, metric, toiCol, w, season), key) == PlayerForecast(rows, metric, toiCol, w, season, key)
  {
    var base := SeasonRows(rows, season - 1);
    var ps := PredictPlayers(rows, metric, toiCol, w, season);
    LookupRows(base, rows, metric, toiCol, w, season, key);
    FirstRowOfSeason(rows, key, season - 1);
    if FirstRow(rows, key, season - 1).Some? {
      var r := FirstRow(rows, key, season - 1).value;
      var i :| 0 <= i < |base| && base[i] == r;
      assert ps[i] in ps && ps[i].key == key;
    } else {
      forall p | p in ps
        ensures p.key != key
      {
        var i :| 0 <= i < |ps| && ps[i] == p;
        assert base[i] in base;
      }
    }
  }

  lemma {:induction false} LookupRows(base: seq<RatingRow>, rows: seq<RatingRow>, metric: string, toiCol: string,
                                      w: seq<seq<real>>, season: int, key: PlayerKey)
    requires PlayerWeights(w)
    requires forall x :: x in base ==> x.season == season - 1
    ensures Lookup(PredictRows(base, rows, metric, toiCol, w, season), key) ==
      (var r := FirstRow(base, key, season - 1);
       if r.None? then None
       else Forecast(Feature(r.value, metric, toiCol), PriorFeature(rows, key, season - 2, metric, toiCol),
                     PriorFeature(rows, key, season - 3, metric, toiCol), w))
    decreases base
  {
    if base != [] {
      LookupRows(base[1..], rows, metric, toiCol, w, season, key);
    }
  }

  lemma FirstRowOfSeason(rows: seq<RatingRow>, key: PlayerKey, season: int)
    ensures FirstRow(SeasonRows(rows, season), key, season) == FirstRow(rows, key, season)
  {
    FirstOfSeasonRows(rows, RatingKey, RatingSeason, key, season);
  }

  // ---------------------------------------------------------------------
  // All metrics for all positions: _predict_players_season
  // ---------------------------------------------------------------------

  /** The larger of two values, skipping a missing one (`max(axis=1)`). */
  function MaxOpt(a: Option<real>, b: Option<real>): (m: Option<real>)
    ensures m.None? <==> a.None? && b.None?
    ensures m == a || m == b
    ensures a.Some? ==> m.value >= a.value
    ensures b.Some? ==> m.value >= b.value
  {
    if a.None? then b
    else if b.None? then a
    else if a.value >= b.value then a else b
  }

  /** One configured prediction: a position, a metric column, its ice-time column and weights. */
  datatype Pass = Pass(position: string, metric: string, toiCol: string, weights: seq<seq<real>>)

  /** The ice-time column of a strength: `TOI` for penalties, `TOI_<strength>` otherwise. */
  function ToiColumn(strength: string): (c: string)
    ensures strength == "Pens" ==> c == "TOI"
    ensures strength != "Pens" ==> c == "TOI_" + strength
  {
    if strength == "Pens" then "TOI" else "TOI_" + strength
  }

  /** The pass of a skater metric at a strength, e.g. `GC60` at `5v5`. */
  function SkaterPass(position: string, strength: string, metric: string, w: seq<seq<real>>): Pass
  {
    Pass(position, metric + "_" + strength, ToiColumn(strength), w)
  }

  /** The goalie pass: GI60 by total ice time. */
  function GoaliePass(w: seq<seq<real>>): Pass
  {
    Pass("G", "GI60", "TOI", w)
  }

  /**
   * The configured passes of one metric at one strength: the goalie pass
   * and the forward and defence skater passes. The two skater passes write
   * the same output column, and after the max over them every player holds
   * the value of their own position's pass; a goalie holds the goalie pass's
   * value in `xGI60`.
   */
  lemma PassesPickOwnPosition(rows: seq<RatingRow>, season: int, strength: string, metric: string,
                              wg: seq<seq<real>>, wf: seq<seq<real>>, wd: seq<seq<real>>, passes: seq<Pass>, key: PlayerKey)
    requires PlayerWeights(wg) && PlayerWeights(wf) && PlayerWeights(wd)
    requires passes == [GoaliePass(wg), SkaterPass("F", strength, metric, wf), SkaterPass("D", strength, metric, wd)]
    ensures OutName(passes[1]) == OutName(passes[2]) == "x" + metric + "_" + strength
    ensures key.position == "G" ==> Column(Combined(rows, season, passes, key), "xGI60") == PassValue(rows, season, passes[0], key)
    ensures key.position == "F" ==> Column(Combined(rows, season, passes, key), "x" + metric + "_" + strength) == PassValue(rows, season, passes[1], key)
    ensures key.position == "D" ==> Column(Combined(rows, season, passes, key), "x" + metric + "_" + strength) == PassValue(rows, season, passes[2], key)
  {
    assert ValidPasses(passes);
    assert passes[0].position == "G" && passes[1].position == "F" && passes[2].position == "D";
    assert OutName(passes[0]) == "xGI60";
    assert "x" + (metric + "_" + strength) == "x" + metric + "_" + strength;
    if key.position == "G" {
      CombinedIsOwnPosition(rows, season, passes, key, 0);
    } else if key.position == "F" {
      CombinedIsOwnPosition(rows, season, passes, key, 1);
    } else if key.position == "D" {
      CombinedIsOwnPosition(rows, season, passes, key, 2);
    }
  }

  /** The output column of a pass. */
  function OutName(p: Pass): string
  {
    "x" + p.metric
  }

  predicate ValidPasses(passes: seq<Pass>)
  {
    forall p :: p in passes ==> PlayerWeights(p.weights)
  }

  /** What one pass merges onto a player: its prediction over that position's rows. */
  function PassValue(rows: seq<RatingRow>, season: int, p: Pass, key: PlayerKey): Option<real>
    requires PlayerWeights(p.weights)
  {
    Lookup(PredictPlayers(PositionRows(rows, p.position), p.metric, p.toiCol, p.weights, season), key)
  }

  /** A pass for another position never supplies a value for the player. */
  lemma {:induction false} OtherPositionMissing(rows: seq<RatingRow>, season: int, p: Pass, key: PlayerKey)
    requires PlayerWeights(p.weights) && p.position != key.position
    ensures PassValue(rows, season, p, key).None?
  {
    var own := PositionRows(rows, p.position);
    PredictionOfPlayer(own, p.metric, p.toiCol, p.weights, season, key);
    assert FirstRow(own, key, season - 1).None?;
  }

  /**
   * The output columns of a player after the passes: each pass's value is
   * merged under its output name, and values merged under the same name are
   * combined by `MaxOpt`.
   */
  function Combined(rows: seq<RatingRow>, season: int, passes: seq<Pass>, key: PlayerKey): map<string, Option<real>>
    requires ValidPasses(passes)
    decreases |passes|
  {
    if passes == [] then map[]
    else
      var m := Combined(rows, season, passes[..|passes| - 1], key);
      var p := passes[|passes| - 1];
      m[OutName(p) := MaxOpt(Column(m, OutName(p)), PassValue(rows, season, p, key))]
  }

  /**
   * The max over positions picks the player's own position: when no two
   * passes share both position and output name, the column of a pass for
   * the player's position holds that pass's value.
   */
  lemma {:induction false} CombinedIsOwnPosition(rows: seq<RatingRow>, season: int, passes: seq<Pass>, key: PlayerKey, j: nat)
    requires ValidPasses(passes) && j < |passes| && passes[j].position == key.position
    requires forall i, k :: 0 <= i < k < |passes| && OutName(passes[i]) == OutName(passes[k]) ==>
      passes[i].position != passes[k].position
    ensures Column(Combined(rows, season, passes, key), OutName(passes[j])) == PassValue(rows, season, passes[j], key)
    decreases |passes|
  {
    var n := |passes| - 1;
    var init := passes[..n];
    var p := passes[n];
    var name := OutName(passes[j]);
    assert forall i :: 0 <= i < n ==> init[i] == passes[i];
    var m := Combined(rows, season, init, key);
    if j == n {
      CombinedWithoutOwnPosition(rows, season, init, key, name);
      MergeKeepsValue(m, name, PassValue(rows, season, p, key), name, PassValue(rows, season, p, key));
    } else {
      CombinedIsOwnPosition(rows, season, init, key, j);
      if OutName(p) == name {
        OtherPositionMissing(rows, season, p, key);
      }
      MergeKeepsValue(m, OutName(p), PassValue(rows, season, p, key), name, Column(m, name));
    }
  }

  /**
   * After merging v under k, column `name` holds `expected`: v itself when
   * the column was missing, and the old column when v is missing or k is
   * another name.
   */
  lemma MergeKeepsValue(m: map<string, Option<real>>, k: string, v: Option<real>, name: string, expected: Option<real>)
    requires k == name && Column(m, name).None? ==> expected == v
    requires k == name && Column(m, name).Some? ==> v.None? && expected == Column(m, name)
    requires k != name ==> expected == Column(m, name)
    ensures Column(m[k := MaxOpt(Column(m, k), v)], name) == expected
  {
  }

  /** A column no pass for the player's position writes stays missing for them. */
  lemma {:induction false} CombinedWithoutOwnPosition(rows: seq<RatingRow>, season: int, passes: seq<Pass>, key: PlayerKey, name: string)
    requires ValidPasses(passes)
    requires forall j :: 0 <= j < |passes| && OutName(passes[j]) == name ==> passes[j].position != key.position
    ensures Column(Combined(rows, season, passes, key), name).None?
    decreases |passes|
  {
    if passes != [] {
      var n := |passes| - 1;
      var init := passes[..n];
      var p := passes[n];
      assert forall i :: 0 <= i < n ==> init[i] == passes[i];
      CombinedWithoutOwnPosition(rows, season, init, key, name);
      if OutName(p) == name {
        OtherPositionMissing(rows, season, p, key);
      }
      var m := Combined(rows, season, init, key);
      MergeKeepsValue(m, OutName(p), PassValue(rows, season, p, key), name, None);
    }
  }

  /**
   * `_predict_players_season`: the season-1 player keys, and for each the
   * columns merged pass by pass.
   */
  method PredictPlayersSeason(rows: seq<RatingRow>, season: int, passes: seq<Pass>)
    returns (keys: seq<PlayerKey>, preds: seq<map<string, Option<real>>>)
    requires ValidPasses(passes)
    ensures keys == Keys(SeasonRows(rows, season - 1))
    ensures |preds| == |keys|
    ensures forall i :: 0 <= i < |keys| ==> preds[i] == Combined(rows, season, passes, keys[i])
  {
    keys := Keys(SeasonRows(rows, season - 1));
    preds := seq(|keys|, _ => map[]);
    assert passes[..0] == [];
    var j := 0;
    while j < |passes|
      invariant 0 <= j <= |passes|
      invariant |preds| == |keys|
      invariant forall i :: 0 <= i < |keys| ==> preds[i] == Combined(rows, season, passes[..j], keys[i])
    {
      preds := MergePass(rows, season, passes, j, keys, preds);
      j := j + 1;
    }
    assert passes[..|passes|] == passes;
  }

  /** One pass of the loop: left-merge the pass's predictions and fold them into the columns. */
  method MergePass(rows: seq<RatingRow>, season: int, passes: seq<Pass>, j: nat,
                   keys: seq<PlayerKey>, preds: seq<map<string, Option<real>>>)
    returns (next: seq<map<string, Option<real>>>)
    requires ValidPasses(passes) && j < |passes| && |preds| == |keys|
    requires forall i :: 0 <= i < |keys| ==> preds[i] == Combined(rows, season, passes[..j], keys[i])
    ensures |next| == |keys|
    ensures forall i :: 0 <= i < |keys| ==> next[i] == Combined(rows, season, passes[..j + 1], keys[i])
  {
    var p := passes[j];
    var table := PredictPlayers(PositionRows(rows, p.position), p.metric, p.toiCol, p.weights, season);
    var name := OutName(p);
    next := [];
    var i := 0;
    while i < |keys|
      invariant 0 <= i <= |keys|
      invariant |next| == i
      invariant forall k :: 0 <= k < i ==> next[k] == Combined(rows, season, passes[..j + 1], keys[k])
    {
      CombinedStep(rows, season, passes, j, keys[i]);
      next := next + [preds[i][name := MaxOpt(Column(preds[i], name), Lookup(table, keys[i]))]];
      i := i + 1;
    }
  }

  /** One more pass merges its value into the player's columns. */
  lemma {:induction false} CombinedStep(rows: seq<RatingRow>, season: int, passes: seq<Pass>, j: nat, key: PlayerKey)
    requires ValidPasses(passes) && j < |passes|
    ensures var before := Combined(rows, season, passes[..j], key);
      Combined(rows, season, passes[..j + 1], key) ==
        before[OutName(passes[j]) := MaxOpt(Column(before, OutName(passes[j])), PassValue(rows, season, passes[j], key))]
  {
    assert passes[..j + 1][..j] == passes[..j];
  }

  /** A predicted row of the output file: player, season and predicted columns. */
  datatype SeasonPrediction = SeasonPrediction(key: PlayerKey, season: int, values: map<string, Option<real>>)

  /** The predictions of one season, stamped with it. */
  function SeasonTable(rows: seq<RatingRow>, season: int, passes: seq<Pass>): (t: seq<SeasonPrediction>)
    requires ValidPasses(passes)
    ensures |t| == |SeasonRows(rows, season - 1)|
  {
    Stamp(Keys(SeasonRows(rows, season - 1)), rows, season, passes)
  }

  function Stamp(ks: seq<PlayerKey>, rows: seq<RatingRow>, season: int, passes: seq<Pass>): (t: seq<SeasonPrediction>)
    requires ValidPasses(passes)
    ensures |t| == |ks|
    ensures forall i :: 0 <= i < |ks| ==> t[i] == SeasonPrediction(ks[i], season, Combined(rows, season, passes, ks[i]))
    decreases ks
  {
    if ks == [] then [] else [SeasonPrediction(ks[0], season, Combined(rows, season, passes, ks[0]))] + Stamp(ks[1..], rows, season, passes)
  }

  /** The predictions of seasons `first` to `last`, concatenated in season order. */
  function PredictionsThrough(rows: seq<RatingRow>, first: int, last: int, passes: seq<Pass>): seq<SeasonPrediction>
    requires ValidPasses(passes)
    decreases last - first
  {
    if last < first then [] else PredictionsThrough(rows, first, last - 1, passes) + SeasonTable(rows, last, passes)
  }

  /**
   * The season loop of update_player_preseason_ratings: predict each
   * season from `first` to `last` and append it.
   */
  method PredictPlayerSeasons(rows: seq<RatingRow>, first: int, last: int, passes: seq<Pass>)
    returns (out: seq<SeasonPrediction>)
    requires ValidPasses(passes)
    ensures out == PredictionsThrough(rows, first, last, passes)
  {
    out := [];
    var season := first;
    while season <= last
      invariant first <= season && (season <= last + 1 || season == first)
      invariant out == PredictionsThrough(rows, first, season - 1, passes)
      decreases last - season
    {
      var table := StampSeason(rows, season, passes);
      PredictionsStep(rows, first, season, passes);
      out := out + table;
      season := season + 1;
    }
    if last < first {
      PredictionsStep(rows, first, first - 1, passes);
    }
  }

  /** One more season appends that season's table; none before the first. */
  lemma PredictionsStep(rows: seq<RatingRow>, first: int, season: int, passes: seq<Pass>)
    requires ValidPasses(passes) && first - 1 <= season
    ensures season < first ==> PredictionsThrough(rows, first, season, passes) == []
    ensures first <= season ==>
      (PredictionsThrough(rows, first, season, passes) ==
       PredictionsThrough(rows, first, season - 1, passes) + SeasonTable(rows, season, passes))
  {
  }

  /** One season's predictions, stamped with the season. */
  method StampSeason(rows: seq<RatingRow>, season: int, passes: seq<Pass>) returns (table: seq<SeasonPrediction>)
    requires ValidPasses(passes)
    ensures table == SeasonTable(rows, season, passes)
  {
    var keys, preds := PredictPlayersSeason(rows, season, passes);
    table := seq(|keys|, i requires 0 <= i < |keys| => SeasonPrediction(keys[i], season, preds[i]));
    assert forall i :: 0 <= i < |table| ==> table[i] == SeasonTable(rows, season, passes)[i];
  }

  /**
   * One season's block: each row is stamped with the season and belongs to
   * a player with a row the season before, and every such player has a row.
   */
  lemma {:induction false} SeasonTableRows(rows: seq<RatingRow>, season: int, passes: seq<Pass>)
    requires ValidPasses(passes)
    ensures forall x :: x in SeasonTable(rows, season, passes) ==>
      x.season == season && FirstRow(rows, x.key, season - 1).Some?
    ensures forall r :: r in rows && r.season == season - 1 ==>
      exists x :: x in SeasonTable(rows, season, passes) && x.key == r.key && x.season == season
  {
    var t := SeasonTable(rows, season, passes);
    var base := SeasonRows(rows, season - 1);
    forall x | x in t
      ensures x.season == season && FirstRow(rows, x.key, season - 1).Some?
    {
      var i :| 0 <= i < |t| && t[i] == x;
      assert base[i] in base;
    }
    forall r | r in rows && r.season == season - 1
      ensures exists x :: x in t && x.key == r.key && x.season == season
    {
      assert r in base;
      var i :| 0 <= i < |base| && base[i] == r;
      assert t[i] in t;
    }
  }

  /** Every output row belongs to a season in range and to a player with a row the season before. */
  lemma {:induction false} PredictionsFollowPriorRows(rows: seq<RatingRow>, first: int, last: int, passes: seq<Pass>)
    requires ValidPasses(passes)
    ensures forall x :: x in PredictionsThrough(rows, first, last, passes) ==>
      first <= x.season <= last && FirstRow(rows, x.key, x.season - 1).Some?
    decreases last - first
  {
    if last >= first {
      PredictionsFollowPriorRows(rows, first, last - 1, passes);
      SeasonTableRows(rows, last, passes);
    }
  }

  /** Every player-season whose previous season is on file, in range, has an output row. */
  lemma {:induction false} PredictionsCoverPriorRows(rows: seq<RatingRow>, first: int, last: int, passes: seq<Pass>)
    requires ValidPasses(passes)
    ensures forall r :: r in rows && first <= r.season + 1 <= last ==>
      exists x :: x in PredictionsThrough(rows, first, last, passes) && x.key == r.key && x.season == r.season + 1
    decreases last - first
  {
    if last >= first {
      PredictionsCoverPriorRows(rows, first, last - 1, passes);
      SeasonTableRows(rows, last, passes);
      var all := PredictionsThrough(rows, first, last, passes);
      var prev := PredictionsThrough(rows, first, last - 1, passes);
      var t := SeasonTable(rows, last, passes);
      assert all == prev + t;
      forall r | r in rows && first <= r.season + 1 <= last
        ensures exists x :: x in all && x.key == r.key && x.season == r.season + 1
      {
        if r.season + 1 < last {
          var x :| x in prev && x.key == r.key && x.season == r.season + 1;
          assert x in all;
        } else {
          var x :| x in t && x.key == r.key && x.season == last;
          assert x in all;
        }
      }
    }
  }

  // ---------------------------------------------------------------------
  // Teams: _predict_teams and _predict_teams_season
  // ---------------------------------------------------------------------

  /** A team-season of mean per-game statistics, columns by name. */
  datatype TeamRow = TeamRow(team: string, season: int, columns: map<string, Option<real>>)

  /** Weights of a team metric: row 0 the default, row 1 intercept and slope. */
  predicate TeamWeights(w: seq<seq<real>>)
  {
    |w| >= 2 && |w[0]| >= 1 && |w[1]| >= 2
  }

  /** A team's prediction from its previous-season value; the default when that is missing. */
  function Extrapolate(v: Option<real>, w: seq<seq<real>>): real
    requires TeamWeights(w)
  {
    if v.None? then w[0][0] else w[1][0] + v.value * w[1][1]
  }

  function TeamSeason(r: TeamRow): int { r.season }
  function TeamName(r: TeamRow): string { r.team }

  /** The team rows of one season. */
  function TeamSeasonRows(rows: seq<TeamRow>, season: int): seq<TeamRow>
  {
    RowsOfSeason(rows, TeamSeason, season)
  }

  /** The first row of a team in a season. */
  function FirstTeamRow(rows: seq<TeamRow>, team: string, season: int): Option<TeamRow>
  {
    FirstOfSeason(rows, TeamName, TeamSeason, team, season)
  }

  datatype TeamPrediction = TeamPrediction(team: string, value: real)

  /**
   * `_predict_teams`: the outer merge of the previous season's teams with
   * this season's; a team with a previous-season value is extrapolated from
   * it, every other team gets the default.
   */
  function PredictTeams(rows: seq<TeamRow>, metric: string, w: seq<seq<real>>, season: int): seq<TeamPrediction>
    requires TeamWeights(w)
  {
    var prev := TeamSeasonRows(rows, season - 1);
    var cur := TeamSeasonRows(rows, season);
    PredictPrevious(prev, metric, w) + PredictNew(cur, prev, w)
  }

  function PredictPrevious(prev: seq<TeamRow>, metric: string, w: seq<seq<real>>): (ps: seq<TeamPrediction>)
    requires TeamWeights(w)
    ensures |ps| == |prev|
    decreases prev
  {
    if prev == [] then []
    else [TeamPrediction(prev[0].team, Extrapolate(Column(prev[0].columns, metric), w))] + PredictPrevious(prev[1..], metric, w)
  }

  /** This season's teams that have no previous-season row, with the default. */
  function PredictNew(cur: seq<TeamRow>, prev: seq<TeamRow>, w: seq<seq<real>>): seq<TeamPrediction>
    requires TeamWeights(w)
    decreases cur
  {
    if cur == [] then []
    else if exists x :: x in prev && x.team == cur[0].team then PredictNew(cur[1..], prev, w)
    else [TeamPrediction(cur[0].team, w[0][0])] + PredictNew(cur[1..], prev, w)
  }

  function TeamLookup(ps: seq<TeamPrediction>, team: string): Option<real>
    decreases ps
  {
    if ps == [] then None
    else if ps[0].team == team then Some(ps[0].value)
    else TeamLookup(ps[1..], team)
  }

  /**
   * What a team gets after the left merge onto the distinct teams: the
   * extrapolation of its previous-season value when it played that season
   * (the default if the value is missing), the default when it plays only
   * this season, and nothing when it played in neither.
   */
  lemma {:induction false} TeamForecastCases(rows: seq<TeamRow>, metric: string, w: seq<seq<real>>, season: int, team: string)
    requires TeamWeights(w)
    ensures var x := TeamLookup(PredictTeams(rows, metric, w, season), team);
      var p := FirstTeamRow(rows, team, season - 1);
      && (p.Some? ==> x == Some(Extrapolate(Column(p.value.columns, metric), w)))
      && (p.None? && FirstTeamRow(rows, team, season).Some? ==> x == Some(w[0][0]))
      && (p.None? && FirstTeamRow(rows, team, season).None? ==> x.None?)
  {
    var prev := TeamSeasonRows(rows, season - 1);
    var cur := TeamSeasonRows(rows, season);
    TeamLookupConcat(PredictPrevious(prev, metric, w), PredictNew(cur, prev, w), team);
    LookupPrevious(prev, metric, w, team, season - 1);
    FirstTeamRowOfSeason(rows, team, season - 1);
    FirstTeamRowOfSeason(rows, team, season);
    if FirstTeamRow(prev, team, season - 1).None? {
      assert forall x :: x in prev ==> x.team != team;
      LookupNew(cur, prev, w, team, season);
    }
  }

  lemma {:induction false} TeamLookupConcat(a: seq<TeamPrediction>, b: seq<TeamPrediction>, team: string)
    ensures TeamLookup(a + b, team) == if TeamLookup(a, team).Some? then TeamLookup(a, team) else TeamLookup(b, team)
    decreases a
  {
    if a != [] {
      assert (a + b)[1..] == a[1..] + b;
      TeamLookupConcat(a[1..], b, team);
    } else {
      assert a + b == b;
    }
  }

  lemma {:induction false} LookupPrevious(prev: seq<TeamRow>, metric: string, w: seq<seq<real>>, team: string, season: int)
    requires TeamWeights(w)
    requires forall x :: x in prev ==> x.season == season
    ensures var p := FirstTeamRow(prev, team, season);
      TeamLookup(PredictPrevious(prev, metric, w), team) ==
        if p.Some? then Some(Extrapolate(Column(p.value.columns, metric), w)) else None
    decreases prev
  {
    if prev != [] {
      LookupPrevious(prev[1..], metric, w, team, season);
    }
  }

  lemma {:induction false} LookupNew(cur: seq<TeamRow>, prev: seq<TeamRow>, w: seq<seq<real>>, team: string, season: int)
    requires TeamWeights(w)
    requires forall x :: x in cur ==> x.season == season
    requires forall x :: x in prev ==> x.team != team
    ensures TeamLookup(PredictNew(cur, prev, w), team) ==
      if FirstTeamRow(cur, team, season).Some? then Some(w[0][0]) else None
    decreases cur
  {
    if cur != [] {
      LookupNew(cur[1..], prev, w, team, season);
    }
  }

  lemma FirstTeamRowOfSeason(rows: seq<TeamRow>, team: string, season: int)
    ensures FirstTeamRow(TeamSeasonRows(rows, season), team, season) == FirstTeamRow(rows, team, season)
  {
    FirstOfSeasonRows(rows, TeamName, TeamSeason, team, season);
  }

  /** A configured team metric and its weights. */
  datatype TeamMetric = TeamMetric(name: string, weights: seq<seq<real>>)

  predicate ValidTeamMetrics(metrics: seq<TeamMetric>)
  {
    forall m :: m in metrics ==> TeamWeights(m.weights)
  }

  function TeamNames(rows: seq<TeamRow>): (ns: seq<string>)
    ensures |ns| == |rows| && forall i :: 0 <= i < |rows| ==> ns[i] == rows[i].team
    decreases rows
  {
    if rows == [] then [] else [rows[0].team] + TeamNames(rows[1..])
  }

  /** The columns a team gets after the metrics are merged one by one. */
  function TeamColumns(rows: seq<TeamRow>, season: int, metrics: seq<TeamMetric>, team: string): map<string, Option<real>>
    requires ValidTeamMetrics(metrics)
    decreases |metrics|
  {
    if metrics == [] then map[]
    else
      var m := metrics[|metrics| - 1];
      TeamColumns(rows, season, metrics[..|metrics| - 1], team)["x" + m.name := TeamLookup(PredictTeams(rows, m.name, m.weights, season), team)]
  }

  /** With distinct metric names, each output column is that metric's prediction. */
  lemma {:induction false} TeamColumnsArePredictions(rows: seq<TeamRow>, season: int, metrics: seq<TeamMetric>, team: string)
    requires ValidTeamMetrics(metrics)
    requires forall i, j :: 0 <= i < j < |metrics| ==> metrics[i].name != metrics[j].name
    ensures forall j :: 0 <= j < |metrics| ==>
      Column(TeamColumns(rows, season, metrics, team), "x" + metrics[j].name) ==
        TeamLookup(PredictTeams(rows, metrics[j].name, metrics[j].weights, season), team)
    decreases |metrics|
  {
    if metrics != [] {
      var n := |metrics| - 1;
      var init := metrics[..n];
      assert forall j :: 0 <= j < n ==> init[j] == metrics[j];
      TeamColumnsArePredictions(rows, season, init, team);
      forall j | 0 <= j < n
        ensures "x" + metrics[j].name != "x" + metrics[n].name
      {
        PrefixCancels("x", metrics[j].name, metrics[n].name);
      }
    }
  }

  lemma {:induction false} PrefixCancels(a: string, b: string, c: string)
    ensures a + b == a + c ==> b == c
  {
    if a + b == a + c {
      assert (a + b)[|a|..] == b;
      assert (a + c)[|a|..] == c;
    }
  }

  /**
   * `_predict_teams_season`: the distinct teams of the table, each with the
   * columns merged metric by metric.
   */
  method PredictTeamsSeason(rows: seq<TeamRow>, season: int, metrics: seq<TeamMetric>)
    returns (teams: seq<string>, values: seq<map<string, Option<real>>>)
    requires ValidTeamMetrics(metrics)
    ensures teams == Distinct(TeamNames(rows))
    ensures |values| == |teams|
    ensures forall i :: 0 <= i < |teams| ==> values[i] == TeamColumns(rows, season, metrics, teams[i])
  {
    teams := Distinct(TeamNames(rows));
    values := seq(|teams|, _ => map[]);
    var j := 0;
    while j < |metrics|
      invariant 0 <= j <= |metrics|
      invariant |values| == |teams|
      invariant forall i :: 0 <= i < |teams| ==> values[i] == TeamColumns(rows, season, metrics[..j], teams[i])
    {
      values := MergeTeamMetric(rows, season, metrics, j, teams, values);
      j := j + 1;
    }
    assert metrics[..|metrics|] == metrics;
  }

  /** One metric of the loop: left-merge its predictions onto the teams. */
  method MergeTeamMetric(rows: seq<TeamRow>, season: int, metrics: seq<TeamMetric>, j: nat,
                         teams: seq<string>, values: seq<map<string, Option<real>>>)
    returns (next: seq<map<string, Option<real>>>)
    requires ValidTeamMetrics(metrics) && j < |metrics| && |values| == |teams|
    requires forall i :: 0 <= i < |teams| ==> values[i] == TeamColumns(rows, season, metrics[..j], teams[i])
    ensures |next| == |teams|
    ensures forall i :: 0 <= i < |teams| ==> next[i] == TeamColumns(rows, season, metrics[..j + 1], teams[i])
  {
    var m := metrics[j];
    var table := PredictTeams(rows, m.name, m.weights, season);
    assert metrics[..j + 1][..j] == metrics[..j];
    next := [];
    var i := 0;
    while i < |teams|
      invariant 0 <= i <= |teams|
      invariant |next| == i
      invariant forall k :: 0 <= k < i ==> next[k] == values[k]["x" + m.name := TeamLookup(table, teams[k])]
    {
      next := next + [values[i]["x" + m.name := TeamLookup(table, teams[i])]];
      i := i + 1;
    }
  }

  datatype TeamSeasonPrediction = TeamSeasonPrediction(team: string, season: int, values: map<string, Option<real>>)

  function TeamSeasonTable(rows: seq<TeamRow>, season: int, metrics: seq<TeamMetric>): seq<TeamSeasonPrediction>
    requires ValidTeamMetrics(metrics)
  {
    TeamStamp(Distinct(TeamNames(rows)), rows, season, metrics)
  }

  function TeamStamp(ts: seq<string>, rows: seq<TeamRow>, season: int, metrics: seq<TeamMetric>): (t: seq<TeamSeasonPrediction>)
    requires ValidTeamMetrics(metrics)
    ensures |t| == |ts|
    ensures forall i :: 0 <= i < |ts| ==> t[i] == TeamSeasonPrediction(ts[i], season, TeamColumns(rows, season, metrics, ts[i]))
    decreases ts
  {
    if ts == [] then [] else [TeamSeasonPrediction(ts[0], season, TeamColumns(rows, season, metrics, ts[0]))] + TeamStamp(ts[1..], rows, season, metrics)
  }

  function TeamPredictionsThrough(rows: seq<TeamRow>, first: int, last: int, metrics: seq<TeamMetric>): seq<TeamSeasonPrediction>
    requires ValidTeamMetrics(metrics)
    decreases last - first
  {
    if last < first then [] else TeamPredictionsThrough(rows, first, last - 1, metrics) + TeamSeasonTable(rows, last, metrics)
  }

  /** The season loop of update_team_preseason_ratings. */
  method PredictTeamSeasons(rows: seq<TeamRow>, first: int, last: int, metrics: seq<TeamMetric>)
    returns (out: seq<TeamSeasonPrediction>)
    requires ValidTeamMetrics(metrics)
    ensures out == TeamPredictionsThrough(rows, first, last, metrics)
  {
    out := [];
    var season := first;
    while season <= last
      invariant first <= season && (season <= last + 1 || season == first)
      invariant out == TeamPredictionsThrough(rows, first, season - 1, metrics)
      decreases last - season
    {
      var table := StampTeamSeason(rows, season, metrics);
      ThroughStep(rows, first, season, metrics);
      out := out + table;
      season := season + 1;
    }
    if last < first {
      ThroughStep(rows, first, first - 1, metrics);
    }
  }

  /** One more season appends that season's table; none before the first. */
  lemma ThroughStep(rows: seq<TeamRow>, first: int, season: int, metrics: seq<TeamMetric>)
    requires ValidTeamMetrics(metrics) && first - 1 <= season
    ensures season < first ==> TeamPredictionsThrough(rows, first, season, metrics) == []
    ensures first <= season ==>
      (TeamPredictionsThrough(rows, first, season, metrics) ==
       TeamPredictionsThrough(rows, first, season - 1, metrics) + TeamSeasonTable(rows, season, metrics))
  {
  }

  /** One season's team predictions, stamped with the season. */
  method StampTeamSeason(rows: seq<TeamRow>, season: int, metrics: seq<TeamMetric>) returns (table: seq<TeamSeasonPrediction>)
    requires ValidTeamMetrics(metrics)
    ensures table == TeamSeasonTable(rows, season, metrics)
  {
    var teams, values := PredictTeamsSeason(rows, season, metrics);
    table := seq(|teams|, i requires 0 <= i < |teams| => TeamSeasonPrediction(teams[i], season, values[i]));
    assert forall i :: 0 <= i < |table| ==> table[i] == TeamSeasonTable(rows, season, metrics)[i];
  }

  /**
   * Every season's block lists each team of the table exactly once, so each
   * team gets one row per predicted season.
   */
  lemma {:induction false} TeamSeasonTableDistinct(rows: seq<TeamRow>, season: int, metrics: seq<TeamMetric>)
    requires ValidTeamMetrics(metrics)
    ensures forall x :: x in TeamSeasonTable(rows, season, metrics) ==> x.season == season
    ensures forall r :: r in rows ==> exists x :: x in TeamSeasonTable(rows, season, metrics) && x.team == r.team
    ensures var t := TeamSeasonTable(rows, season, metrics);
      forall i, j :: 0 <= i < j < |t| ==> t[i].team != t[j].team
  {
    var ts := Distinct(TeamNames(rows));
    var t := TeamSeasonTable(rows, season, metrics);
    forall r | r in rows
      ensures exists x :: x in t && x.team == r.team
    {
      var k :| 0 <= k < |rows| && rows[k] == r;
      assert TeamNames(rows)[k] == r.team;
      assert r.team in ts;
      var i :| 0 <= i < |ts| && ts[i] == r.team;
      assert t[i] in t;
    }
  }
}
