# nhl-predictions: a verified model of the rating and feature pipeline

This project models the core of the nhl-predictions pipeline, which turns NHL
play-by-play and shift data into features and predicts games. The model is
written in Dafny, and the verifier checks every property stated here.

- Shot table (`get_shots_data`): the previous-event context, the shot
  categories (Unknown, Rebound, Rush), the filters and the time since the
  previous shot. The xG flurry discount follows (`add_xG_to_pbp`).
- Strength strings: a string is flipped with `str[::-1]` so that it reads
  from the acting team's side.
- Player aggregation (`aggregate_player_data`):
  - cutting a game into strength segments;
  - the pairwise shift-overlap engine, with its time-on-ice buckets and zone
    starts, over a chunk loop;
  - the per-event flags and the score/venue adjustment key;
  - individual credit and on-ice credit over the twelve roster slots;
  - position by majority vote, the playoff flag and the Win flag (shared with
    `aggregate_team_data`).
- Team Elo (`add_elo`, `add_scheduled_games`): a class holding each row's
  rating, with a loop over games.
- Rating formulas (`inseason_ratings.py`, `update_preseason_ratings.py`):
  - weighted per-3600-second metrics, pooled means and exposure terms;
  - above-average and above-expectation decompositions;
  - goalie save-percentage value, penalty value and GI60.
- Preseason predictors (`PreseasonRatingsUpdater._predict_players`,
  `_predict_players_season`, `_predict_teams` and the season loops).
- In-season tables (`add_team_inseason_ratings`, and the date loop of
  `add_player_inseason_ratings`): trailing team means with no look-ahead.
- Game features (`add_game_features`, `_add_lag`): rookie defaults, the tanh
  blends, Elo differences, lagged rolling means and matchup differences.
- Betting back-test (`test_with_lines.py`): implied probability, gain
  ratio, Kelly stake and net result.

## Modelling conventions

- A pandas NaN is `None` of `Wrappers.Option`.
- A row is a datatype, and a table is a sequence of rows, taken in the
  order the source sorts it into.
- Numbers are Dafny `real`s, so floating-point rounding is not modelled.
- `np.log`, `10**x` and `np.tanh` are function parameters. Each comes with
  the facts the proofs need, stated as preconditions: `ln 1 = 0`;
  `10^x > 0` and `10^x * 10^-x = 1`; `tanh 0 = 0`, `0 <= tanh x < 1` for
  `x >= 0`, and tanh is non-decreasing.
- Fitted regressions and ML predictors are parameters too, as are the
  per-date player computations whose formulas are in `Ratings`.

## Model

| member | source | states |
|---|---|---|
| Strength.Reverse | data_processing.py:110 | the flipped string has the original's length |
| Strength.ReverseAt | data_processing.py:110 | position i of the flip holds position len-1-i of the original |
| Strength.ReverseInvolution | data_processing.py:110 | flipping twice gives back the original string |
| Strength.ForActingTeam | data_processing.py:109-110 | the away team's state is the flip of the stored one, and the home team's is unchanged |
| Strength.ReverseThree | data_processing.py:110 | "abc" flips to "cba" |
| Strength.FlipOfKnownState | data_processing.py:53-110 | each modelled state and the shootout state flip to one another: power play and penalty kill swap, and 5x5 and 0x0 are fixed |
| Strength.FlipSwapsPowerPlayAndPenaltyKill | data_processing.py:110 | for every string, flipping swaps {5x4, 5x3, 4x3} with {4x5, 3x5, 3x4}, keeps the nine modelled states and keeps 5x5 and 0x0 (also lines 215-216, 266-267, 332-334) |
| Shots.Candidates | data_processing.py:23-27 | the candidates are events of the table, of a located type, with both coordinates |
| Shots.KeptShots | data_processing.py:50-60 | every kept shot passes the shot filters and is the annotation of one candidate |
| Shots.ShotsData | data_processing.py:63-113 | the shot table has one row per kept candidate |
| Shots.Annotate | data_processing.py:29-41 | no contract of its own: the previous-event context of a candidate; `CategoryFollowsPreviousEvent` states the rule it feeds |
| Shots.TimeSincePrev | data_processing.py:44 | no contract of its own: seconds since the previous kept event; `CategoryFollowsPreviousEvent` states its use |
| Shots.CategoryOf | data_processing.py:62-65 | no contract of its own: the Rush/Rebound/Unknown rule; `CategoryFollowsPreviousEvent` states it on the shot table |
| Shots.CategoryFollowsPreviousEvent | data_processing.py:30-65 | each shot's category follows the rule on the candidate just before it: Rebound after a same-team SHOT within 2 s, Rush (overriding) within 4 s and 50 units in x, and a previous row of another game or period reads as time 0 at x 0 |
| Shots.CategoryRule | data_processing.py:62-65 | no contract of its own: the category rule between a shot and the candidate before it; `CategoryFollowsPreviousEvent` states that every row meets it |
| Shots.ShotTableInvariants | data_processing.py:50-110 | every row is a MISS/SHOT/GOAL mirrored to x >= 0 with goal set exactly for a GOAL, and comes from a candidate in a modelled state that is not into an empty net; its state is that candidate's flipped for an away shooter, its score for and against are the shooter's and the opponent's, and its score difference is their difference |
| Shots.IntoEmptyNet | data_processing.py:54-59 | no contract of its own: whether the shooting team faces an empty net; `ShotTableInvariants` states that no row of the shot table is one |
| Shots.Finish | data_processing.py:63-113 | no contract of its own: the finished features of one kept shot; `FinishedRow` and `ShotTableInvariants` state them |
| Shots.FinishedRow | data_processing.py:63-113 | a finished row is a MISS/SHOT/GOAL in a modelled state, mirrored to x >= 0, with a non-negative time since the previous shot and goal set exactly for a GOAL; its state is its event's flipped for an away shooter, and its score for and against are the shooter's and the opponent's |
| Shots.PreviousShotGap | data_processing.py:68-101 | the time since the previous shot is the gap to the row before when it is in the same game and period and not negative, and 1200 otherwise |
| Shots.PrevInGroup | data_processing.py:158-159 | the previous row of the same (game, date, season, period) group, with no row of the group in between |
| Shots.PrevBefore | data_processing.py:159 | a backward scan finds the latest row of the group at or before j |
| Shots.FlurryDiscount | data_processing.py:159-161 | non-rebounds keep their xG; a rebound with a previous row in its group gets xG * (1 - previous xG), so the previous xG plus the discounted one is 1 - (1 - previous)(1 - xG), the chance that at least one of the two shots scores; the result lies in [0, xG] for probabilities, and is missing when the rebound opens its group |
| Shots.FlurryXG | data_processing.py:157-161 | no contract of its own: the flurry-discounted xG; `FlurryDiscount` states its cases and bounds |
| Segments.LexLessTotal | data_processing.py:181 | Python's string order is total and asymmetric on distinct strings |
| Segments.RanksFirstUnique | data_processing.py:181-182 | at most one row of a (game, period, second) has rank('first') == 1 on the event name |
| Segments.FirstPerSecond | data_processing.py:179-182 | no contract of its own: the rows with a home zone that rank first in their second; `RanksFirstUnique` and `SegmentOrigin` state it |
| Segments.KeepRanked | data_processing.py:181-182 | no contract of its own: the scan behind `FirstPerSecond`; `SegmentOrigin` states what it keeps |
| Segments.ResolvedStrength | data_processing.py:183-185 | no contract of its own: a penalty row takes the next row's state; `OpeningIndices` and `SegmentOrigin` state its use |
| Segments.OpeningIndices | data_processing.py:184-187 | the rows kept as segment starts are exactly the rows whose resolved state differs from the previous row's raw state, or the first second of period 1, in order |
| Segments.BuildSegments | data_processing.py:178-192 | no contract of its own: the segment table of a chunk; `SegmentsChain` and `SegmentOrigin` state its shape |
| Segments.SegmentsChain | data_processing.py:188-192 | each segment ends where the next begins, and the last ends at 1200; a 3-on-3 overtime segment ends at 300 when it is last or the next segment is in another period |
| Segments.EndOf | data_processing.py:188-192 | no contract of its own: the end of one segment; `SegmentsChain` states it |
| Segments.SegmentOrigin | data_processing.py:179-187 | every segment comes from a first-ranked row that opens a segment, and a penalty row carries the state of the row after it |
| Segments.WindowCases | data_processing.py:203-208 | in its own period a segment covers exactly [start, end], running to 1200 in place of its end when it wrapped; a wrapped segment covers [0, end) of every later period; an ordinary one covers no other period, and none covers an earlier one |
| Segments.WindowFor | data_processing.py:203-208 | no contract of its own: the window a segment covers in a shift's period; `WindowCases` states its cases |
| Overlap.MeetsIffIntersect | data_processing.py:196-198 | for non-empty intervals the three-clause test holds exactly when min(ends) - max(starts) > 0 |
| Overlap.PairTest | data_processing.py:196-198 | no contract of its own: the three-clause overlap test; `MeetsIffIntersect` and `PairTestSymmetric` state it |
| Overlap.Overlap3 | data_processing.py:217 | no contract of its own: min of the ends minus max of the starts; `Overlap3Bounds` and `PairwiseMeetingShare` state it |
| Overlap.PairTestSymmetric | data_processing.py:196-198 | the pair test is symmetric in the two shifts |
| Overlap.Overlap3Bounds | data_processing.py:217 | the shared time never exceeds either shift's or the segment's length, and does not depend on the order of the two shifts |
| Overlap.PairwiseMeetingShare | data_processing.py:196-217 | three non-empty intervals that meet pairwise share a positive time (one-dimensional Helly) |
| Overlap.FlipIf | data_processing.py:215-216 | a missing state stays missing; a present one is seen from x's team |
| Overlap.PairOn | data_processing.py:195-217 | no contract of its own: the overlap row of two shifts in one segment; `PairOnFacts` and `PairOnSymmetric` state it |
| Overlap.PairOnFacts | data_processing.py:195-217 | an overlap row pairs two different players of one game and period, with a shared time no longer than either shift or the window, positive for non-empty intervals, and the segment's state seen from x |
| Overlap.PairOnSymmetric | data_processing.py:195-217 | swapping the two shifts keeps whether a row exists and its shared time |
| Overlap.OverlapExample | data_processing.py:217 | shifts [0, 1200) and [600, 900) in a whole-period segment share 300 seconds |
| Overlap.OnSegmentsMembers | data_processing.py:200 | the rows of one pair are exactly its rows over the segments |
| Overlap.WithPartnersMembers | data_processing.py:195-200 | the rows of one shift are exactly its rows with each partner and segment |
| Overlap.PairRows | data_processing.py:194-217 | no contract of its own: the overlap rows of a chunk; `PairRowsMembers` states exactly which rows it holds |
| Overlap.PairRowsMembers | data_processing.py:195-217 | the overlap table holds exactly the rows that some pair of shifts forms with some segment |
| Overlap.BucketsExclusive | data_processing.py:223-229 | at most one of TOI_5v5, TOI_PP, TOI_PK is set, exactly when the row's state is of that kind, and it then equals the row's TOI |
| Overlap.SplitToi | data_processing.py:223-229 | no contract of its own: time on ice in 5v5, power-play and penalty-kill rows, the reference for `BucketTotals` |
| Overlap.OverlapWithinToi | data_processing.py:217-229 | a shift's time on ice within the segment is at least its overlap with any partner |
| Overlap.BucketTotals | data_processing.py:223-229 | the 5v5, power-play and penalty-kill bucket totals add up to the time on ice spent in those states |
| Overlap.ToiGroups | data_processing.py:230-231 | one summed row per listed key, in the keys' order |
| Overlap.ToiTable | data_processing.py:230-231 | no contract of its own: the time-on-ice rows summed per player and game; `ToiTableConserves` states it |
| Overlap.ToiTableConserves | data_processing.py:230-231 | each column of the per-player time-on-ice table sums to that column's total over the (shift, segment) rows, and its 5v5, PP and PK columns add up to the time spent in those states |
| Overlap.PairGroups | data_processing.py:233-234 | one summed row per listed pair key, in the keys' order |
| Overlap.PairTable | data_processing.py:233-234 | no contract of its own: the overlap rows with a known state summed per pair key; `PairTableFacts` states it |
| Overlap.PairTableFacts | data_processing.py:233-234 | the grouped pair table keeps every second of shared time whose state is known and nothing else, and each of its keys is the key of an overlap row with that state |
| Overlap.ZoneMirror | data_processing.py:270-279 | at one 5v5 faceoff the home and away players see mirrored zones, and the neutral zone is neutral for both |
| Overlap.ZoneOf | data_processing.py:270-279 | no contract of its own: the zone a 5v5 faceoff gives a team; `ZoneMirror` states it |
| Overlap.ZoneStartAsWritten | data_processing.py:261-279 | as written: a zone start comes from a faceoff of the shift's game (any period) that starts within the shift, at 5v5 seen from the shift's team; it carries the shift's game and player and a zone O, D or N |
| Overlap.ZoneStartOf | data_processing.py:261-303 | the corrected rule: a zone start comes from a 5v5 faceoff of the shift's game and period that starts within the shift, and its zone is O, D or N |
| Overlap.ZoneStartIgnoresPeriod | data_processing.py:261-263 | as written, a period-1 faceoff counts as a zone start for a period-2 shift over the same clock seconds; with periods matched it does not |
| Overlap.ZoneStartCount | data_processing.py:282-303 | no contract of its own: the count of a player's zone starts of one kind in a game; `ZoneStartIgnoresPeriod` states it for both rules |
| Overlap.AtShiftMembers | data_processing.py:261-263 | for any zone-start rule, the zone starts of a shift are exactly those the rule gives it with some segment |
| Overlap.ZoneStartsMembers | data_processing.py:282-303 | for any zone-start rule, the zone starts of a chunk are exactly those the rule gives some shift with some segment |
| Overlap.ZoneStartsWith | data_processing.py:258-303 | no contract of its own: a chunk's zone starts under a rule; `ZoneStartsMembers` states exactly which it holds |
| Overlap.NumChunksCover | data_processing.py:173-176 | the ceil(n / 10) chunks cover every id, and every chunk starts at an id |
| Overlap.NumChunks | data_processing.py:175 | no contract of its own: ceil(n / 10); `NumChunksCover` states it |
| Overlap.ChunkIds | data_processing.py:176 | a chunk holds ids of the list |
| Overlap.ConcatChunks | data_processing.py:175-308 | the loop's three tables (grouped pair overlaps, per-player time on ice, zone starts) are the concatenation of every chunk's output, in chunk order |
| Overlap.AggregateChunks | data_processing.py:172-308 | the engine's output over all games is the chunked concatenation of `ProcessChunk`, which groups the pair and time-on-ice tables and matches zone starts on the game only, as written |
| Overlap.ChunksPartition | data_processing.py:174-176 | every game id lies in the chunk k / 10 |
| Overlap.ProcessChunk | data_processing.py:178-303 | no contract of its own: one chunk's grouped pair table, per-player time-on-ice table and as-written zone starts; `ChunkedPairsFromShifts` and `ChunkedZonesFromShifts` state what they hold |
| Overlap.ChunkPairsFromShifts | data_processing.py:194-240 | every row of one chunk's grouped pair table has a game id of the chunk, and its two player ids are those of two shifts of that game and one period, of two different players |
| Overlap.ChunkedPairsFromShifts | data_processing.py:194-240 | every row of the grouped pair table of the chunked run has a game id of the list, and its two player ids are those of two shifts of that game and one period, of two different players |
| Overlap.ChunkZonesFromShifts | data_processing.py:261-308 | every zone start of one chunk has a game id of the chunk and a zone O, D or N, and belongs to a shift of its game and player whose span contains the start of a 5v5 faceoff segment of that game, in any period |
| Overlap.ChunkedZonesFromShifts | data_processing.py:261-308 | every zone start of the chunked run has a game id of the list and a zone O, D or N, and belongs to a shift of its game and player whose span contains the start of a 5v5 faceoff segment of that game, in any period |
| Attribution.TallyIn | data_processing.py:316-345 | goals <= shots on goal <= unblocked attempts <= attempts <= 1; unblocked plus a blocked flag is the attempt flag; an attempt is a SHOT, MISS, GOAL or BLOCK in the context, and a goal a GOAL |
| Attribution.TallyPenaltyKillAsWritten | data_processing.py:346 | no contract of its own: the penalty-kill flags as written; `PenaltyKillUnblockedCountsBlocks` and `EventTallyRules` state them |
| Attribution.TallyOf | data_processing.py:316-345 | no contract of its own: an event's flags in a bucket; `BucketsWithinAll` and `AgainstPowerPlayIsOwnPowerPlay` state them |
| Attribution.PenaltyKillUnblockedCountsBlocks | data_processing.py:345-346 | as written a blocked attempt on the penalty kill counts as unblocked, so penalty-kill unblocked attempts always equal attempts; the corrected flags count it as an attempt only |
| Attribution.BucketsWithinAll | data_processing.py:316-346 | a bucket never counts more than all situations, 5v5, PP and PK together count at most all situations, and every GOAL is either a shootout goal or a regular goal |
| Attribution.AdjustmentKeyRanges | data_processing.py:352-367 | the key's period class is 1, 3 or 4 and its score difference in [-3, 3], narrowed to {1, 3} and [-1, 1] outside 5v5; empty-net events have state EN, power plays PP, and the venue is the acting team's |
| Attribution.AdjustmentKey | data_processing.py:352-367 | no contract of its own: the adjustment key of an event; `AdjustmentKeyRanges` states its ranges |
| Attribution.AdjustedValues | data_processing.py:368-392 | an empty net earns no adjusted goal; without a table row the adjusted counts are the raw counts; with one, goals are scaled by the goal factor |
| Attribution.XgOf | data_processing.py:325-350 | an event's xG and flurry xG are kept in a bucket exactly when the bucket keeps the event (all situations always; 5v5 outside empty nets; the acting team's PP or PK) and are missing otherwise |
| Attribution.XgKept | data_processing.py:325-350 | no contract of its own: whether a bucket keeps an event's xG; `XgOf` states it |
| Attribution.XgBucketsExclusive | data_processing.py:325-350 | all situations hold the event's xG; the 5v5, PP and PK columns together hold it at most once, and an empty-net event has no 5v5 xG |
| Attribution.AdjustedXgValues | data_processing.py:375-392 | adjusted xG is missing exactly when the xG is, equals it without a table row, and is the xG times the key's xG factor with one |
| Attribution.AdjustedXg | data_processing.py:375-376 | no contract of its own: the adjusted xG and flurry xG; `AdjustedXgValues` states them |
| Attribution.Credited | data_processing.py:394-400 | a BLOCK is credited to its second player; a SHOT, MISS, GOAL or PENL to its first; other events to nobody |
| Attribution.SumForConcat | data_processing.py:403-450 | the grouped sum over two tables is the sum of their grouped sums |
| Attribution.XgSumsSplit | data_processing.py:408-430 | when every event falls in 5v5, PP or PK, a player's 5v5, PP and PK xG add up to the all-situations xG |
| Attribution.SumXgForConcat | data_processing.py:403-450 | the grouped xG sum over two tables is the sum of their grouped sums, missing values skipped |
| Attribution.SumXgFor | data_processing.py:403-450 | no contract of its own: a grouped xG sum skipping missing values; `SumXgForConcat` and `XgSumsSplit` state it |
| Attribution.AssistDroppedWithoutIndividualRow | data_processing.py:475-490 | as written, a primary assister with no individual row in the game loses the assist; counted per second player it is kept |
| Attribution.CreditIsAdditive | data_processing.py:403-520 | adding a goal raises its scorer's goals, its second player's primary assists and its third player's secondary assists by exactly one |
| Attribution.IndividualGoals | data_processing.py:403-450 | no contract of its own: the goals summed per credited player; `CreditIsAdditive` states it |
| Attribution.PrimaryAssistsAsWritten | data_processing.py:468-494 | no contract of its own: primary assists left-merged onto the individual table; `AssistDroppedWithoutIndividualRow` states it |
| Attribution.PrimaryAssists | data_processing.py:475-490 | no contract of its own: primary assists counted per second player, the corrected half of the assist finding; `CreditIsAdditive` and `AssistDroppedWithoutIndividualRow` state it |
| Attribution.PenaltiesDrawn | data_processing.py:472-494 | no contract of its own: counted penalties summed per second player; `PenaltyDrawnCredit` states it |
| Attribution.PenaltyDrawnCredit | data_processing.py:329 | a penalty adds one penalty drawn to its second player exactly when it is a PENL that is not a fight, and nothing otherwise (also lines 472-494) |
| Attribution.SecondaryAssists | data_processing.py:497-520 | no contract of its own: goals summed per third player; `CreditIsAdditive` states it |
| Attribution.TeamEventFlags | data_processing.py:529-530 | with two distinct teams and a known acting team, an event counts for exactly one side |
| Attribution.TeamEventFlagsAsWritten | data_processing.py:529-530 | no contract of its own: the side flags as written; `BlockCountsForBothSides` states them |
| Attribution.SideFlags | data_processing.py:529-530 | no contract of its own: the side flags under a rule set; `BlockCreditedBothWays` and `OnIceRulesAgree` state their effect |
| Attribution.BlockCountsForBothSides | data_processing.py:529-530 | as written a BLOCK counts for both sides at once; other events count for the acting side only, as in the corrected flags |
| Attribution.EventTallyRules | data_processing.py:316-346 | the as-written and corrected rules read the same flags except a BLOCK on the penalty kill, whose unblocked flag is 1 as written and 0 corrected |
| Attribution.SlotCredit | data_processing.py:533-537 | no contract of its own: one slot's credit of one event; `EventSlotsSingle` and `EventSlotsMatchCredit` state it |
| Attribution.OnIceCredit | data_processing.py:529-537 | no contract of its own: the per-event on-ice credit, the reference for the slot engine in `EventSlotsMatchCredit` |
| Attribution.EventSlotsSingle | data_processing.py:533-537 | an event credits a player in no slot when absent and in exactly the slot the player fills otherwise (also lines 956-958) |
| Attribution.EventSlotsMatchCredit | data_processing.py:533-620 | under either rule set, the twelve slot credits of an event add up to its per-event on-ice credit (also lines 728-815, 956-958) |
| Attribution.SlotsTotalByEvent | data_processing.py:956-958 | summing slot columns then events equals summing per event then slots |
| Attribution.SlotsTotal | data_processing.py:956-958 | no contract of its own: the twelve slot columns added up; `SlotsTotalMatchesOnIce` states it |
| Attribution.OnIceTotal | data_processing.py:529-537 | no contract of its own: the per-event on-ice credit summed over events, the reference in `SlotsTotalMatchesOnIce` |
| Attribution.SlotsTotalMatchesOnIce | data_processing.py:533-958 | under either rule set, when a player fills at most one slot per event, the twelve summed slot columns are the per-event on-ice credit summed over events |
| Attribution.OnIceSlots | data_processing.py:533-958 | the slot loops compute the sum of all slot columns, which is the per-event on-ice total when each event has the player in at most one slot; the program is the run with the as-written rules, where a BLOCK counts for both sides and as unblocked on the penalty kill |
| Attribution.SlotTotalSplit | data_processing.py:631-721 | a slot column is the column over all but the last event plus the last event's credit |
| Attribution.BlockCreditedBothWays | data_processing.py:529-537 | as written, a home player on the ice for a home-team BLOCK is credited one attempt for and one against; under the corrected flags, one against and none for |
| Attribution.OnIceRulesAgree | data_processing.py:529-537 | for an event other than a BLOCK the two rule sets give the same on-ice credit |
| Attribution.ReboundsAgainstOnIce | data_processing.py:605 | the ReboundShotsAgainst column of a home player on the ice is the Rebound flag when the away team shot, in every bucket and under either rule set, and 0 when the home team shot |
| Attribution.OnIceTotalRulesAgree | data_processing.py:529-958 | over a table without BLOCK events the two rule sets give the same on-ice totals |
| Attribution.AgainstPowerPlayIsOwnPowerPlay | data_processing.py:581 | the power-play attempts against a home player are the away team's attempts while the home team is on the power play (also lines 619, 332-336) |
| Attribution.FirstMax | data_processing.py:1011 | idxmax: an index of a largest vote, before which every vote is smaller |
| Attribution.PositionVote | data_processing.py:1007-1016 | a player is G exactly when the goalie slot's votes beat every other slot's, and F exactly when a forward slot holds a largest vote |
| Attribution.PositionOf | data_processing.py:1007-1016 | no contract of its own: the position from the six slot votes; `PositionVote` states it |
| Attribution.PositionVotes | data_processing.py:629 | six votes, one per slot of either side (also lines 824, 923) |
| Attribution.PlayoffsMonotone | data_processing.py:1031-1037 | the playoff flag never switches back as the game rank and date grow, and the first 48 dates are regular season apart from the 2019 cut-off |
| Attribution.Playoffs | data_processing.py:1031-1037 | no contract of its own: the playoff flag; `PlayoffsMonotone` and `PlayoffsAtOrdered` state it |
| Attribution.PlayoffsAtOrdered | data_processing.py:1033-1037 | within a team's season a later date is a playoff game whenever an earlier one is (also lines 1203-1209) |
| Attribution.OneWinner | data_processing.py:1186-1190 | in a decided game exactly one team wins: the one with more goals, or with more shootout goals on tied goals |
| Attribution.Win | data_processing.py:1186-1190 | no contract of its own: the Win flag; `OneWinner` and `WinCases` state it |
| Attribution.WinCases | data_processing.py:1186-1190 | a team is flagged exactly when it has at least the other's goals and shootout goals, so a full tie flags both teams and more goals with fewer shootout goals flags neither |
| Attribution.TeamGoalsSplit | data_processing.py:1087-1088 | every GOAL is either a regular team goal or a shootout goal (second 0), never both |
| Attribution.TeamTally | data_processing.py:1087-1095 | no contract of its own: the team flags of an event; `TeamGoalsSplit` states the goal split |
| Attribution.TeamShootoutGoal | data_processing.py:1088 | no contract of its own: the shootout-goal flag; `TeamGoalsSplit` states it |
| Attribution.KeptTeam | data_processing.py:1194 | no contract of its own: the three-letter team filter |
| Elo.Regress | data_processing.py:1052-1057 | the regressed rating keeps 70% of its distance from 1505 |
| Elo.RegressTowardTarget | data_processing.py:1053-1056 | the regressed rating lies between the old rating and 1505, strictly closer to 1505 unless already there |
| Elo.WinProbability | data_processing.py:1058-1059 | the logistic expectation lies strictly between 0 and 1 |
| Elo.ProbabilitiesSumToOne | data_processing.py:1058-1059 | the two teams' expectations add up to one |
| Elo.MarginMultiplierShared | data_processing.py:1062-1063 | both teams get the same margin multiplier, 0.8048 for a game decided by at most one goal |
| Elo.MarginMultiplier | data_processing.py:1062-1063 | no contract of its own: the margin-of-victory multiplier; `MarginMultiplierShared` states it |
| Elo.AutoAdjustFactors | data_processing.py:1064-1072 | a first-listed favourite that wins is dampened into (0, 1); a second-listed one is amplified above 1 because the difference keeps its sign, and the factor is missing 2050 points behind; otherwise both factors are 1 |
| Elo.AutoAdjust | data_processing.py:1064-1072 | no contract of its own: the favourite dampening factors; `AutoAdjustFactors` states their cases |
| Elo.GameUpdate | data_processing.py:1058-1076 | no contract of its own: one game's rating update; `GameUpdateZeroSum` and `EvenGameExample` state it |
| Elo.GameUpdateZeroSum | data_processing.py:1058-1076 | without a favourite's win the update is zero-sum and the winner gains |
| Elo.EvenGameExample | data_processing.py:1058-1076 | two 1500 teams and a 3-2 result give 1502.4144 and 1497.5856 |
| Elo.OverallRanks | data_processing.py:1045 | one rank per row, each at least 1 |
| Elo.GameIds | data_processing.py:1046 | the game ids of the table, each once, in order of first appearance: an earlier id has a row before every row of a later one |
| Elo.RowsOf | data_processing.py:1049 | exactly the indices from `from` on whose row belongs to the game, every such row listed, in increasing order |
| Elo.Regresses | data_processing.py:1052-1057 | no contract of its own: whether a game's row opens a season that is not the team's first; `PlayGameWrites` states its effect |
| Elo.RatingBefore | data_processing.py:1050-1057 | no contract of its own: a row's rating going into its game, regressed when the row opens a later season; `PlayGameWrites` states it |
| Elo.WriteRating | data_processing.py:1054-1078 | the write keeps the table's length |
| Elo.PlayGame | data_processing.py:1049-1078 | a game is played exactly when it has two rows, and keeps the table's length |
| Elo.PlayGameWrites | data_processing.py:1052-1078 | a game changes only its two teams' current and next rows; each next row gets the team's new rating, and each team's current row the regressed rating when the game opens that team's season (the old rating otherwise) |
| Elo.InitialRatings | data_processing.py:1047 | every row starts at 1500 |
| Elo.EloFold | data_processing.py:1046-1080 | the ratings after the games, one per row |
| Elo.EloFoldDefined | data_processing.py:1048-1051 | the fold is defined exactly when every game played has two rows |
| Elo.FoldStep | data_processing.py:1048-1078 | playing the next game id on the ratings so far gives the fold over one more game |
| Elo.EloFoldNoneExtends | data_processing.py:1048-1051 | once a game fails, every longer run fails |
| Elo.EloTable.constructor | data_processing.py:1043-1047 | the table holds its rows, each rated 1500 |
| Elo.EloTable.AddElo | data_processing.py:1043-1080 | the loop succeeds exactly when the fold over all game ids is defined, and then leaves the fold's ratings |
| Elo.MinDate | data_processing.py:1232 | the earliest scheduled date |
| Elo.TeamCode | data_processing.py:1227 | no contract of its own: the replacement of five old team codes; `ScheduleRowsFacts` states that every schedule row carries it |
| Elo.ScheduleRow | data_processing.py:1220-1228 | no contract of its own: one home or away row of a scheduled game; `ScheduleRowsFacts` states it |
| Elo.ScheduleRows | data_processing.py:1220-1228 | no contract of its own: the home rows then the away rows; `ScheduleRowsFacts` states it |
| Elo.ScheduleRowsFacts | data_processing.py:1220-1228 | each scheduled game gives a home row (Home 1) then an away row (Home 0) under the replaced team codes, for the given season, without a result |
| Elo.HistoryBeforeSchedule | data_processing.py:1231-1233 | the table is the history rows dated before every scheduled game, all of them and nothing else, followed by the schedule rows |
| Elo.WithScheduledGames | data_processing.py:1216-1238 | no contract of its own: the history kept before the schedule, then the schedule rows; `HistoryBeforeSchedule` states it |
| Betting.ImpliedPct | test_with_lines.py:69-71 | for non-zero odds the implied probability lies strictly between 0 and 1; odds of 0 keep 0 |
| Betting.GainRatio | test_with_lines.py:88-90 | non-zero odds pay a positive gain |
| Betting.ImpliedPctIsBreakEven | test_with_lines.py:69-90 | the implied probability is 1 / (1 + gain) |
| Betting.NormBet | test_with_lines.py:93 | the Kelly stake is missing exactly for odds of 0 |
| Betting.KellyPositive | test_with_lines.py:85-93 | the stake is positive exactly when the model's probability beats the implied one |
| Betting.ExpectedNetWin | test_with_lines.py:93-98 | at the model's probability the expected result of a placed bet is gain * stake^2 > 0 |
| Betting.NetWin | test_with_lines.py:95-98 | no contract of its own: the net result of one bet; `ExpectedNetWin` states its expectation |
| Betting.Sides | test_with_lines.py:75-81 | one home row with the prediction, then one away row with teams swapped and the complementary probability |
| Betting.NeverBothSides | test_with_lines.py:75-85 | the two sides are mirror images, and with a bookmaker margin the model never bets both |
| Betting.NetTotalOfOne | test_with_lines.py:85-98 | a line not beaten adds nothing; a placed bet gains when won and loses when lost |
| Betting.NetTotal | test_with_lines.py:84-101 | no contract of its own: the net result over all lines; `NetTotalOfOne` states each line's share |
| Ratings.MetricTerms | inseason_ratings.py:27-74 | each metric_O, metric_D, metric_PP and metric_PK has three terms with a positive weight sum |
| Ratings.IndividualTerms | inseason_ratings.py:194-196 | the individual contribution has five terms with a positive weight sum (also lines 281-283, 379-381, 443-445) |
| Ratings.Rate | inseason_ratings.py:27-74 | a metric is missing exactly when its ice time times the weight sum is 0 |
| Ratings.RateTimesDenominator | inseason_ratings.py:27-74 | the metric times ice time times the weight sum is 3600 times the weighted count |
| Ratings.WeightedCount | inseason_ratings.py:27-74 | no contract of its own: a metric's weighted goal-equivalent count; `RateTimesDenominator` and `WeightedCountAdditive` state it |
| Ratings.RateOfUniformComponents | inseason_ratings.py:27-74 | when every component converts to the same goals per hour, the metric is that rate |
| Ratings.UniformWeightedCount | inseason_ratings.py:27-74 | with uniform components, 3600 times the weighted count is that rate times ice time times the weight sum |
| Ratings.ColumnSums | inseason_ratings.py:84-123 | one sum per count column |
| Ratings.WeightedMean | inseason_ratings.py:197 | the weighted mean is missing exactly when the weights sum to 0 (also line 502) |
| Ratings.MeanTimesTotal | inseason_ratings.py:197 | the weighted mean times the weight sum is the weighted sum (also line 502) |
| Ratings.PlayerRates | inseason_ratings.py:27-74 | one rate per player |
| Ratings.PlayerRatesAreRates | inseason_ratings.py:27-74 | entry i is player i's own metric |
| Ratings.PooledIsToiWeightedMean | inseason_ratings.py:84-123 | the pooled league mean equals the TOI-weighted mean of the players' own metrics |
| Ratings.PooledRate | inseason_ratings.py:84-123 | no contract of its own: the metric of the column sums; `PooledIsToiWeightedMean` states it |
| Ratings.WeightedCountAdditive | inseason_ratings.py:84-123 | the weighted count of summed columns is the sum of the weighted counts |
| Ratings.ColumnSumsCount | inseason_ratings.py:84-123 | the weighted count of the column sums is the sum of the players' weighted counts |
| Ratings.RatesDot | inseason_ratings.py:84-123 | the TOI-weighted sum of the players' metrics times the weight sum is 3600 times the summed weighted counts |
| Ratings.AboveAverage | inseason_ratings.py:193 | no contract of its own: each value measured above the weighted mean (also lines 198, 210, 280, 285, 320); `AboveAverageZeroSum` states it |
| Ratings.AboveAverageZeroSum | inseason_ratings.py:197-198 | values above their own weighted mean have a zero weighted sum (also lines 501-502) |
| Ratings.ShiftByMean | inseason_ratings.py:197-198 | any values that add the weighted mean back to the originals have a zero weighted sum |
| Ratings.DotShift | inseason_ratings.py:197-198 | shifting every value by m lowers the weighted sum by m times the weight sum |
| Ratings.Divisor | inseason_ratings.py:152-163 | the number of other skaters is positive: 4 teammates and 5 opponents at 5v5, 4 and 4 on the power play, 3 and 5 on the penalty kill (also lines 221-226, 297-302) |
| Ratings.ExposureMetric | inseason_ratings.py:152-163 | a teammate contributes the same kind of metric, an opponent the opposing kind; missing penalty-kill and opponent power-play metrics count as 0 (also lines 221-226, 297-302) |
| Ratings.ExposureSum | inseason_ratings.py:152-163 | no contract of its own: a side's summed exposure; `SideSumScaled` and `ExposureOfUniformPairs` state it |
| Ratings.ExposureOfUniformPairs | inseason_ratings.py:152-175 | when every partner has metric m and the shared time is the ice time times the divisor, the exposure sum is m (also lines 221-231, 297-307) |
| Ratings.FullShare | inseason_ratings.py:152-175 | a side sum over partners all at m is m when the shared time equals the denominator |
| Ratings.SideSumScaled | inseason_ratings.py:152-175 | a side sum over partners all at m, times the denominator, is m times the shared time |
| Ratings.SideSum | inseason_ratings.py:152-163 | no contract of its own: the pairs' terms on one side; `SideSumScaled` and `FullShare` state it |
| Ratings.PairExposureScaled | inseason_ratings.py:152-163 | one pair's term times the denominator is the metric times its shared time |
| Ratings.PairExposure | inseason_ratings.py:152-163 | no contract of its own: one pair's term; `PairExposureScaled` states it |
| Ratings.FillFeatures | inseason_ratings.py:191-208 | a missing regression feature is filled with 0.4, a present one kept |
| Ratings.FitRows | inseason_ratings.py:187-205 | the regression is fitted on exactly the rows with every feature present |
| Ratings.CompleteFrom | inseason_ratings.py:187-188 | the complete rows from index k on |
| Ratings.AboveExpectation | inseason_ratings.py:191-209 | the residual plus the prediction on the filled features is the observed metric, and a complete row is predicted on its own features |
| Ratings.Contribution | inseason_ratings.py:199 | no contract of its own: GC60 as the mean of three above-baseline measures (also lines 286, 384, 448); `ComponentBounds` states it |
| Ratings.Prevention | inseason_ratings.py:211 | no contract of its own: GP60 as minus the mean of two above-baseline goals-against measures (also lines 321, 396, 481); `ComponentBounds` states it |
| Ratings.ComponentBounds | inseason_ratings.py:199-211 | GC60 lies within bounds holding for its parts; GP60 is positive exactly when goals against are below baseline on balance |
| Ratings.Adjustment | update_preseason_ratings.py:255-258 | the adjustment is missing exactly when ln of the mean ice time is 0, is never negative, and is at least 1 + 5 (ln toi / ln mean - 1) |
| Ratings.AdjustmentShape | update_preseason_ratings.py:255-258 | a player at the mean ice time gets 1, and the adjustment does not decrease with ice time |
| Ratings.GoalImpact | update_preseason_ratings.py:378-384 | GI60 is missing exactly when the combined ice time is 0 |
| Ratings.BlendBounds | update_preseason_ratings.py:382-384 | the time-weighted average lies within bounds that hold for every value with positive time |
| Ratings.BlendLow | update_preseason_ratings.py:382-384 | the time-weighted average is at least a lower bound of every value with positive time |
| Ratings.BlendHigh | update_preseason_ratings.py:382-384 | the time-weighted average is at most an upper bound of every value with positive time |
| Ratings.BlendOfOne | update_preseason_ratings.py:382-384 | with only one positive time, the average is that value |
| Ratings.GoalImpactIsTimeWeighted | update_preseason_ratings.py:378-384 | apart from the penalty term GI60 lies within bounds holding for every context present, and without special-teams rows it is the 5v5 impact |
| Ratings.SavePct | inseason_ratings.py:500 | the save percentage is missing exactly without shots against, and lies in [0, 1] when goals do not exceed shots |
| Ratings.SavePcts | inseason_ratings.py:500 | row i holds goalie i's save percentage |
| Ratings.Tois | inseason_ratings.py:501-502 | row i holds goalie i's ice time |
| Ratings.GoalsSavedAboveAverage | inseason_ratings.py:501-503 | goals saved above average are what a league-average goalie would allow on the same shots minus the goals allowed |
| Ratings.SavePctAboveAverageZeroSum | inseason_ratings.py:500-502 | when every goalie faced shots, the league save percentage is the TOI-weighted mean, and save percentage above it has a zero TOI-weighted sum |
| Ratings.LeagueSavePct | inseason_ratings.py:501-502 | no contract of its own: the TOI-weighted league save percentage; `SavePctAboveAverageZeroSum` states it |
| Ratings.PresentDotAllPresent | inseason_ratings.py:502 | with every value present, the NaN-skipping sum is the plain weighted sum |
| Ratings.GoalieImpact | inseason_ratings.py:504-505 | goalie GI60 is missing exactly without ice time |
| Ratings.GoalieImpactIsAverage | inseason_ratings.py:504-505 | goalie GI60 lies between the per-hour rates of its two saved-goal measures, and equals their common rate |
| Ratings.PenaltyValue | inseason_ratings.py:329 | the value of a penalty is missing exactly when either special-teams ice time is 0 (also line 489) |
| Ratings.PenaltyValueIsTwoMinutes | inseason_ratings.py:329 | a penalty is worth two minutes of power-play goals minus two minutes of penalty-kill goals against, and 0 when the rates agree (also line 489) |
| Ratings.PenaltyImpact | inseason_ratings.py:330 | GI60_Pens is missing exactly without ice time (also line 490) |
| Ratings.PenaltyImpactMonotone | inseason_ratings.py:330 | the weights .837/1.163 and .733/1.267 split 2; the impact strictly rises with penalties drawn at a fixed number taken, strictly falls with penalties taken at a fixed number drawn (and moves the same way when both change in those directions), and is 0 with neither (also line 490) |
| Preseason.RowsOfSeason | update_preseason_ratings.py:21-48 | the rows of one season (of any table): exactly the table's rows with that season |
| Preseason.PositionRows | update_preseason_ratings.py:52 | the rows of one position: exactly the table's rows with that position |
| Preseason.FirstOfSeason | update_preseason_ratings.py:31-32 | the row a left merge on a key finds for a season, present exactly when the table has a row with that key and season |
| Preseason.FirstOfSeasonRows | update_preseason_ratings.py:21-32 | the first row of a key and season is the same whether looked up in the whole table or in that season's rows |
| Preseason.Keys | update_preseason_ratings.py:48-49 | the player keys of the rows, in order |
| Preseason.Feature | update_preseason_ratings.py:23-29 | a feature is present exactly when the metric and its ice time are |
| Preseason.Linear | update_preseason_ratings.py:34-42 | the linear model is present exactly when every feature it uses is |
| Preseason.History | update_preseason_ratings.py:34-42 | the history length is 1, 2 or 3 |
| Preseason.ForecastUsesHistory | update_preseason_ratings.py:34-42 | the forecast is weights row k over the first k features, k being the history length; a season-3 feature is ignored when season 2 is missing |
| Preseason.Forecast | update_preseason_ratings.py:34-42 | no contract of its own: the three extrapolation branches; `ForecastUsesHistory` states which history each uses |
| Preseason.LinearOfOne | update_preseason_ratings.py:35 | one feature gives w0 + f1 w1, missing when f1 is |
| Preseason.LinearSnoc | update_preseason_ratings.py:37-42 | one more feature adds its term, and the model stays present exactly when the feature is |
| Preseason.PredictPlayers | update_preseason_ratings.py:19-44 | one prediction per season-1 row, under that row's key |
| Preseason.Lookup | update_preseason_ratings.py:54-62 | a key absent from the predictions merges as missing |
| Preseason.PredictionOfPlayer | update_preseason_ratings.py:19-44 | a player gets a prediction exactly when they have a season-1 row, and the merged value is the forecast from their season-1, -2 and -3 features |
| Preseason.PlayerForecast | update_preseason_ratings.py:19-44 | no contract of its own: the forecast of the player's first season-1 row; `PredictionOfPlayer` states it |
| Preseason.LookupRows | update_preseason_ratings.py:19-44 | the value merged from the predictions of a season's rows is the forecast of the player's first row there |
| Preseason.FirstRowOfSeason | update_preseason_ratings.py:21-31 | filtering to a season first does not change the first row found |
| Preseason.MaxOpt | update_preseason_ratings.py:66-68 | max(axis=1) skips a missing value: it is one of its arguments, at least each present one, and missing only when both are |
| Preseason.ToiColumn | update_preseason_ratings.py:58-61 | penalties use TOI, every other strength TOI_<strength> |
| Preseason.SkaterPass | update_preseason_ratings.py:56-62 | no contract of its own: the pass of a skater metric at a strength; `PassesPickOwnPosition` states it |
| Preseason.GoaliePass | update_preseason_ratings.py:53-54 | no contract of its own: the GI60 pass by total ice time; `PassesPickOwnPosition` states it |
| Preseason.PassesPickOwnPosition | update_preseason_ratings.py:51-68 | the forward and defence passes of a metric and strength write the same column, and after the max over them each skater holds their own position's prediction; a goalie holds the goalie pass's prediction in xGI60 |
| Preseason.OtherPositionMissing | update_preseason_ratings.py:52-62 | a pass for another position never supplies a value for the player |
| Preseason.CombinedIsOwnPosition | update_preseason_ratings.py:51-68 | when no two passes share position and output name, the player's column holds the value of the pass for their own position |
| Preseason.CombinedWithoutOwnPosition | update_preseason_ratings.py:51-68 | a column no pass for the player's position writes stays missing |
| Preseason.PredictPlayersSeason | update_preseason_ratings.py:46-70 | the loop yields the season-1 player keys, each with the columns combined over all passes |
| Preseason.MergePass | update_preseason_ratings.py:54-68 | one pass turns the columns combined over the first j passes into those over j + 1 |
| Preseason.CombinedStep | update_preseason_ratings.py:62-68 | one more pass folds its value into its output column with max |
| Preseason.Combined | update_preseason_ratings.py:51-68 | no contract of its own: a player's merged output columns; `CombinedIsOwnPosition`, `CombinedWithoutOwnPosition` and `CombinedStep` state them |
| Preseason.SeasonTable | update_preseason_ratings.py:602-603 | one row per season-1 row |
| Preseason.Stamp | update_preseason_ratings.py:603 | each row is the player's combined columns stamped with the season |
| Preseason.PredictPlayerSeasons | update_preseason_ratings.py:600-604 | the season loop yields the concatenation of every season's stamped predictions, in season order |
| Preseason.StampSeason | update_preseason_ratings.py:602-603 | one season's predictions stamped with the season |
| Preseason.SeasonTableRows | update_preseason_ratings.py:46-49 | each row of a season's block is stamped with the season and belongs to a player with a row the season before, and every such player has a row (also lines 602-603) |
| Preseason.PredictionsFollowPriorRows | update_preseason_ratings.py:600-604 | every output row has a season in range and a player with a row the season before |
| Preseason.PredictionsCoverPriorRows | update_preseason_ratings.py:600-604 | every player-season in range whose previous season is on file has an output row |
| Preseason.TeamSeasonRows | update_preseason_ratings.py:609-611 | no contract of its own: the team-table instance of `RowsOfSeason`, which states it |
| Preseason.FirstTeamRow | update_preseason_ratings.py:614 | no contract of its own: the team-table instance of `FirstOfSeason`, which states it |
| Preseason.PredictPrevious | update_preseason_ratings.py:609-617 | one prediction per previous-season row |
| Preseason.Extrapolate | update_preseason_ratings.py:615-617 | no contract of its own: a team's forecast from its previous-season value, the default when that is missing; `TeamForecastCases` and `LookupPrevious` state it |
| Preseason.PredictNew | update_preseason_ratings.py:614-615 | no contract of its own: the default for the teams only in this season; `LookupNew` and `TeamForecastCases` state it |
| Preseason.TeamForecastCases | update_preseason_ratings.py:608-624 | a team that played last season is extrapolated from its value (the default when missing); a team new this season gets the default; any other team gets nothing |
| Preseason.PredictTeams | update_preseason_ratings.py:608-619 | no contract of its own: `_predict_teams`; `TeamForecastCases`, `LookupPrevious` and `LookupNew` state it |
| Preseason.TeamLookupConcat | update_preseason_ratings.py:614 | a lookup in two concatenated prediction tables finds the first table's value first |
| Preseason.LookupPrevious | update_preseason_ratings.py:615-617 | a team of the previous season gets the extrapolation of its first row |
| Preseason.LookupNew | update_preseason_ratings.py:614-615 | a team only in this season gets the default |
| Preseason.TeamLookup | update_preseason_ratings.py:614-617 | no contract of its own: a team's merged prediction; `TeamLookupConcat`, `LookupPrevious` and `LookupNew` state it |
| Preseason.FirstTeamRowOfSeason | update_preseason_ratings.py:609-611 | filtering to a season first does not change the first team row found |
| Preseason.TeamNames | update_preseason_ratings.py:622 | the team of every row, in order |
| Preseason.TeamColumns | update_preseason_ratings.py:622-626 | no contract of its own: the columns merged metric by metric; `TeamColumnsArePredictions` states it |
| Preseason.TeamColumnsArePredictions | update_preseason_ratings.py:622-626 | with distinct metric names, each output column is its metric's prediction |
| Preseason.PrefixCancels | update_preseason_ratings.py:624 | the "x" prefix keeps distinct metric names distinct |
| Preseason.PredictTeamsSeason | update_preseason_ratings.py:621-626 | the loop yields the distinct teams, each with the columns merged over all metrics |
| Preseason.MergeTeamMetric | update_preseason_ratings.py:624 | one metric turns the columns over the first j metrics into those over j + 1 |
| Preseason.TeamStamp | update_preseason_ratings.py:651-652 | each row is the team's merged columns stamped with the season |
| Preseason.PredictTeamSeasons | update_preseason_ratings.py:649-653 | the season loop yields every season's stamped team predictions, in season order |
| Preseason.StampTeamSeason | update_preseason_ratings.py:651-652 | one season's team predictions stamped with the season |
| Preseason.TeamSeasonTableDistinct | update_preseason_ratings.py:622-653 | every block is stamped with its season and lists each team of the table exactly once |
| Preseason.TeamSeasonTable | update_preseason_ratings.py:622-653 | no contract of its own: one season's team predictions; `TeamSeasonTableDistinct` states it |
| Inseason.Insert | inseason_ratings.py:79 | inserting a date keeps the list strictly increasing and adds exactly that date (also line 542) |
| Inseason.SortedDates | inseason_ratings.py:79 | `sort_values().unique()`: strictly increasing, holding exactly the dates of the column (also line 542) |
| Inseason.LaterDates | inseason_ratings.py:79 | `[1:]` after sorting: increasing, holding exactly the dates with an earlier date in the table (also line 542) |
| Inseason.DropEarliest | inseason_ratings.py:79 | dropping the first of increasing dates keeps exactly those with an earlier one (also line 542) |
| Inseason.AboveFirst | inseason_ratings.py:79 | every later date of an increasing list is above the first (also line 542) |
| Inseason.ConsIncreasing | inseason_ratings.py:79 | a date below all others can go in front (also line 542) |
| Inseason.PrevNameInjective | inseason_ratings.py:548-562 | the renaming to prevGames_X / prevGames_XAgainst gives distinct metrics distinct names |
| Inseason.PrevName | inseason_ratings.py:548-562 | no contract of its own: the trailing-mean column name; `PrevNameInjective` states it |
| Inseason.CancelPrefix | inseason_ratings.py:548-562 | a shared prefix cancels from equal names |
| Inseason.CancelSuffix | inseason_ratings.py:548-562 | a shared suffix cancels from equal names |
| Inseason.SuffixOf | inseason_ratings.py:548-562 | a name ends with the suffix appended to it |
| Inseason.ColumnValues | inseason_ratings.py:547 | one value per game, each the game's value of the column |
| Inseason.PresentCount | inseason_ratings.py:547 | the number of present values: at most the length, zero exactly when all are missing |
| Inseason.MeanSkipMissing | inseason_ratings.py:547 | the group mean is missing exactly when every value is |
| Inseason.MeanTimesCount | inseason_ratings.py:547 | the mean times the number of present values is their sum |
| Inseason.MeanOfConstant | inseason_ratings.py:547 | the mean of values all equal to c is c |
| Inseason.ConstantSum | inseason_ratings.py:547 | values all equal to c are all present and sum to c added once per value |
| Inseason.RepeatedIsProduct | inseason_ratings.py:547 | c added n times is c * n |
| Inseason.MeansOf | inseason_ratings.py:527-547 | one mean per metric, in order, each over that metric's column |
| Inseason.SeasonOn | inseason_ratings.py:543 | `Season.max()` on the date: missing exactly when no game is on it, otherwise the season of such a game and at least every such season |
| Inseason.PriorGames | inseason_ratings.py:544-545 | exactly the earlier games of the current season whose team plays on the date |
| Inseason.TeamHistory | inseason_ratings.py:544-547 | exactly the team's games of the season before the date |
| Inseason.TeamsOf | inseason_ratings.py:547 | exactly the teams with a game |
| Inseason.MeansBlock | inseason_ratings.py:547-563 | every row is stamped with the date and season and belongs to a listed team |
| Inseason.DateBlock | inseason_ratings.py:543-563 | no contract of its own: the rows of one date; `LookupDateBlock`, `NoLookAhead` and `NoLaterSeason` state them |
| Inseason.DatesIn | inseason_ratings.py:542 | the dates of a table: exactly the dates some row has |
| Inseason.LookupPrev | inseason_ratings.py:570 | a key with no in-season row merges as missing |
| Inseason.MergePrev | inseason_ratings.py:570 | the left merge keeps every game, in order, each with the in-season row found for its (Team, Season, Date) |
| Inseason.AddTeamInseasonRatings | inseason_ratings.py:525-571 | the games left-merged with the table of every visited date's block |
| Inseason.TrailingMeansTable | inseason_ratings.py:541-567 | the date loop appends the visited dates' blocks in date order; an empty block (`len(df_temp.index) == 0`) adds nothing |
| Inseason.AppendBlock | inseason_ratings.py:563-567 | one pass appends its date's block to the table of the dates before it |
| Inseason.TrailingMean | inseason_ratings.py:541-570 | a game gets in-season values exactly when it is in the latest season of its date and its team has an earlier game that season, and they are the means over exactly those earlier games |
| Inseason.LookupBlocks | inseason_ratings.py:563-570 | looking a date up in the concatenated blocks finds that date's block, and nothing for a date not visited |
| Inseason.BlocksOf | inseason_ratings.py:543-563 | no contract of its own: the blocks of the visited dates in order; `LookupBlocks` states it |
| Inseason.LookupDateBlock | inseason_ratings.py:543-563 | within a date's block, a team playing that date finds its means exactly when the season is the date's latest and it has earlier games |
| Inseason.TeamInPrior | inseason_ratings.py:544-545 | a team playing on the date is among the prior games' teams exactly when it has an earlier game that season |
| Inseason.LookupMeansBlock | inseason_ratings.py:547 | a team of the block finds the means of its own prior games; other teams and seasons find nothing |
| Inseason.HistoryOfPrior | inseason_ratings.py:544-547 | the prior games of one team playing on the date are that team's history |
| Inseason.NoLookAhead | inseason_ratings.py:543-544 | games dated after d change neither the histories nor the season at d |
| Inseason.NoLaterHistory | inseason_ratings.py:544 | games after d give no history at d |
| Inseason.NoLaterSeason | inseason_ratings.py:543 | games after d give no season at d |
| Inseason.GamesBefore | inseason_ratings.py:80 | exactly the player-games dated before the date |
| Inseason.GameIds | inseason_ratings.py:81 | exactly the game ids of the rows |
| Inseason.OverlapsOf | inseason_ratings.py:81 | exactly the overlap rows of the listed games |
| Inseason.PlayerDates | inseason_ratings.py:79 | no contract of its own: the player-game instance of `DatesIn`, which states it |
| Inseason.SnapshotsOf | inseason_ratings.py:79-81 | one snapshot per listed date, in order, each the ratings over the games before that date (also line 510) |
| Inseason.PlayerInseasonSnapshots | inseason_ratings.py:78-81 | the player date loop yields the snapshot of every date after the first, in date order (also lines 509-518) |
| Inseason.SnapshotsStep | inseason_ratings.py:79-81 | one more date appends its snapshot to those of the dates before it (also lines 515-518) |
| Inseason.SnapshotSeesOnlyEarlierGames | inseason_ratings.py:80-81 | games dated on or after a snapshot's date do not change it |
| Inseason.PlayerSnapshot | inseason_ratings.py:79-81 | no contract of its own: the ratings computed from the games before a date and their overlaps; `SnapshotSeesOnlyEarlierGames` and `SnapshotOverlapsAreEarlier` state it |
| Inseason.EarlierGamesOnly | inseason_ratings.py:80 | appending games on or after d leaves the games before d unchanged |
| Inseason.NoEarlierGames | inseason_ratings.py:80 | games on or after d contribute none before d |
| Inseason.SnapshotOverlapsAreEarlier | inseason_ratings.py:81 | every overlap row a snapshot uses belongs to a game played before its date |
| Features.RookieDefault | data_processing.py:1258-1268 | a default exists exactly for the ratings the position projects: the five skater ratings for F and D, xGI60 for G |
| Features.FillPreseason | data_processing.py:1258-1268 | a present preseason rating is kept; a missing one becomes the rookie default, so afterwards it is present exactly when it was or the position projects it |
| Features.WeightRange | data_processing.py:1281-1335 | the in-season weight tanh((n - 1) / coef) is 0 in game 1, stays below 1 and never falls as the game number grows |
| Features.InseasonWeight | data_processing.py:1281-1335 | no contract of its own: tanh((n - 1) / coef); `WeightRange` states it |
| Features.QuotientOrder | data_processing.py:1281 | dividing by a positive scale keeps the order of non-negative numbers |
| Features.Blend | data_processing.py:1280-1335 | the blend is present exactly when both the in-season and the preseason value are (also lines 1429-1433) |
| Features.BlendBetween | data_processing.py:1280-1335 | the blend moves the preseason value a fraction w of the way to the in-season value: it lies between them and is the preseason value at w = 0 (also lines 1429-1433) |
| Features.FractionBelow | data_processing.py:1280-1284 | a fraction w in [0, 1] of a non-negative gap is within the gap |
| Features.TanhCoef | data_processing.py:1281-1334 | each projected rating of a position has its own positive scale; no other pair has one |
| Features.TeamSeasons | data_processing.py:1271 | the (Team, Season) group key of every row |
| Features.PlayerDates | data_processing.py:1271 | the DateInt of every row |
| Features.PlayerGameNum | data_processing.py:1271 | the dense date rank within the team's season is at least 1 |
| Features.PlayerProjection | data_processing.py:1271-1335 | no contract of its own: a row's projected rating; `FirstGameIsPreseason` and `LaterGameBlends` state it |
| Features.FirstGameIsPreseason | data_processing.py:1271-1277 | on its team's first date of the season, every one of the six ratings of a row is its (filled) preseason value, whatever the position |
| Features.LaterGameBlends | data_processing.py:1280-1335 | after the team's first date, a rating the position projects is present exactly when its in-season value is, and then lies between that and the filled preseason value |
| Features.Projected | data_processing.py:1271-1335 | no contract of its own: a player's projected rating; `FirstGameIsPreseason`, `LaterGameBlends` and `WeightGrowsThroughSeason` state it |
| Features.WeightGrowsThroughSeason | data_processing.py:1271-1335 | teammates on the same date share the game number, and a later date never lowers the in-season weight |
| Features.FirstGameBlendAgrees | data_processing.py:1272-1284 | the blend at game 1 equals the preseason value, so the first-game rule and the blend agree |
| Features.TeamProjectionCases | data_processing.py:1423-1433 | game 1 takes the preseason value or the config default and is never missing; a later game is present exactly when the in-season value is and lies between it and the filled preseason value; a row without a rank keeps its value |
| Features.TeamProjected | data_processing.py:1423-1433 | no contract of its own: a team metric's projection; `TeamProjectionCases` states it |
| Features.EloDiff | data_processing.py:1420 | no contract of its own: the team's rating minus the opponent's; `EloDiff538Sides` states it, antisymmetric between the two sides |
| Features.EloDiff538Sides | data_processing.py:1421 | with 0/1 flags: plain difference +50 at home, -50 away, times 1.25 in the playoffs; the two sides of a game are exact negatives |
| Features.EloDiff538 | data_processing.py:1421 | no contract of its own: the 538-style difference; `EloDiff538Sides` states it |
| Features.Minus | data_processing.py:1477-1481 | a difference is present exactly when both operands are |
| Features.Plus | data_processing.py:1479 | a sum is present exactly when both operands are |
| Features.DiffsMirror | data_processing.py:1477-1481 | seen from the opponent, offence and defence differences swap and change sign, PP and PK likewise, and the overall 5v5 difference changes sign |
| Features.Diffs | data_processing.py:1477-1481 | no contract of its own: the matchup differences; `DiffsMirror` states them |
| Features.GroupValues | data_processing.py:1242-1243 | at most n earlier values of the group |
| Features.GroupValuesMembers | data_processing.py:1242-1243 | exactly one value per earlier row of the group |
| Features.GroupValuesPrefix | data_processing.py:1242-1243 | the group's earlier values depend only on the rows before n |
| Features.OptSum | data_processing.py:1242 | a window sum is present exactly when every value in it is |
| Features.WindowMean | data_processing.py:1242 | `rolling(window=lag).mean()` is present exactly when lag values exist and all are present, and then times lag is their sum |
| Features.LagMean | data_processing.py:1240-1245 | the lag feature of a row is the mean of the latest lag earlier values of its group, present exactly when there are lag of them and all are present (also lines 1401-1404, 1446-1449) |
| Features.LagNoLookAhead | data_processing.py:1243 | a row's lag feature does not change when its own or any later value does |
| Features.LagOfConstant | data_processing.py:1240-1245 | a group whose latest lag earlier values all equal c gets c |
| Features.WindowOfConstant | data_processing.py:1242 | a window of values all equal to c has mean c |
| Features.ConstantOptSum | data_processing.py:1242 | a window of values all equal to c sums to c added once per value |
| Features.RepeatTimes | data_processing.py:1242 | c added n times is c * n |
| Seqs.Filter | data_processing.py:1400 | a boolean-mask `.loc` keeps exactly the rows satisfying the mask |
| Seqs.FilterConcat | data_processing.py:1400 | masking a concatenation masks each part |
| Seqs.Distinct | update_preseason_ratings.py:622 | `drop_duplicates`/`unique` keeps every value once and nothing else |
| Seqs.DistinctFirstAppearance | data_processing.py:1046 | `unique()` keeps first-appearance order: of two kept values, the earlier one occurs before every occurrence of the later one |
| Seqs.DenseRankOrder | data_processing.py:1271 | `rank("dense")` within a group: equal values share a rank, a smaller value has a smaller rank, the smallest has rank 1 |
| Seqs.DenseRank | data_processing.py:1271 | no contract of its own: one more than the distinct smaller values of the group; `DenseRankOrder` states it |
| Seqs.Keys | data_processing.py:230-231 | the key column of a table: one key per row, in row order |
| Seqs.GroupedTotal | data_processing.py:230-234 | a `groupby(...).sum()` over keys that are distinct and cover every row loses and duplicates nothing: the per-key sums add up to the column total |

## Left out

- Network scraping, pickles, CSV and JSON files, argparse orchestration (`data_scraper.py`, `update_data.py`, `predict_today.py`, `gen_train_data.py`) and the `PreseasonRatingsUpdater` file-path fields: I/O, not logic. The configuration tables are parameters.
- The xG and game models (`xG_model.py`, `games_model.py`): foreign lightgbm/sklearn predictors. xG values and win probabilities are inputs.
- The sklearn `LinearRegression` fits in `inseason_ratings.py` and `update_preseason_ratings.py`: the fitted predictor is a function parameter. Only the 0.4 fill of a missing feature and the residual `observed - predicted` are modelled.
- `np.log`, `10**x`, `np.tanh`: function parameters, constrained only by the facts the proofs use (ln 1 = 0, 10^0 = 1, 10^x * 10^-x = 1, tanh 0 = 0, 0 <= tanh x < 1 and non-decreasing for x >= 0).
- Floating point: numbers are exact reals, so rounding, overflow and IEEE NaN propagation are not modelled. NaN is an explicit `None`. A non-zero number divided by zero, which pandas turns into plus or minus infinity, is `None` too: `Ratings.Rate`, `Ratings.WeightedMean`, `Ratings.SavePct`, `Ratings.GoalieImpact`, `Ratings.PenaltyValue` and `Ratings.PenaltyImpact` are missing wherever their denominator is 0, where the source gives an infinite value for a non-zero numerator and NaN for 0/0.
- Betting.NetTotal: a closing line of 0 gives a gain ratio of 0. pandas then computes `NormBet = pct - (1 - pct) / 0 = -inf` and keeps the line whenever pct > 0 = ImpliedPct, so the sum becomes infinite or NaN. The model's stake is `None` for that line (`Betting.NormBet`), and the line adds 0 to the net result.
- The distance features `distanceSincePrev` and `distanceSincePrevShot` (`data_processing.py:45`, `78`): Euclidean distances through `np.sqrt`, which the exact-real model has no operation for. They are inputs of the foreign xG model only. The x and y distances (`abs`) are modelled.
- Attribution.OnIceSlots: the slot engine is stated for the integer columns: the count flags and the `ReboundShotsAgainst_onice` column (`data_processing.py:605`, `800`), which reads the Rebound flag through `Attribution.ReboundCol`. The real-valued on-ice columns (xG, flurry xG and the adjusted counts, `data_processing.py:541-542`, `562-579` and their away twins) multiply the same side flag by a real cell. They are not modelled; `Attribution.XgOf` and `Attribution.AdjustedXg` give the cell such a column multiplies.
- Sorting (`sort_values`): tables are taken already in the order the source sorts them into.
- The dtype downcasts, `gc.collect`, the 10-game chunk size and the debugging prints: memory management and reporting.
- The median, std and max game-feature aggregates (`data_processing.py:1338-1393`): statistics that feed only the foreign model.
- The self-joins of `add_game_features` (`data_processing.py:1406-1419`, `1458-1472`), `RestDays` and `BackToBack`, and the `Opp_` / `Against_lastN` renames: column plumbing. The opponent's values are taken as inputs to `Features.Diffs` and `Features.EloDiff538`.
- The per-player sums `xGC60_5v5_sum` and the others feeding `Features.Diffs`: a grouped sum of the projected ratings, taken as input.
- Features.TeamProjectionCases: states the team blend for one metric and one row. The loop over the metrics of the configuration applies it to each metric independently.
- The per-season accumulation loop of `update_player_preseason_ratings` (`update_preseason_ratings.py:73-598`): file reads and the per-season formulas. The formulas are modelled in `Ratings`, and the concatenated `ratings_all` is the input table of `Preseason`.
- Ratings.Adjustment: when the log of the mean TOI is 0, pandas divides by zero (an infinite value, or NaN for 0/0). The model gives a missing value in every such case.
- Inseason.PlayerInseasonSnapshots: the per-date rating formulas are the `compute` parameter of the loop, and their arithmetic is modelled in `Ratings`. The literal column list of the player rename (`inseason_ratings.py:512-514`) is not modelled.
- The team-season means of `update_team_preseason_ratings` (`update_preseason_ratings.py:629-647`): the filter to regular-season games, the self-join on `Game_Id`, `Date` and `Season` keeping rows with `Team != Opp`, and the grouped mean by team and season are column plumbing. Their result enters the model as the `Preseason.TeamRow` input.

## Notes on the source

- Segment start (`data_processing.py:181`): the code keeps the event ranked first by `rank('first')` on the event name within a second. That is the alphabetically least event name, with the first occurrence among equals, and not the first event listed. The model follows the code.
- `add_player_inseason_ratings` drops `Date` and `Game_Id` (`inseason_ratings.py:12`, `22`) before using them at lines 79-81. As written it cannot run. The model follows the evident intent: `Date` and `Game_Id` stay available for the date loop.
- `inseason_ratings.py:510-514`: the date stamp `Date` is renamed positionally to `PlayerGameNum`, so the left merge on `Date` at line 521 would not find it. The model keys the snapshots by date, as intended.
- Elo's auto-adjust (`data_processing.py:1064-1072`): the branch for a second-listed favourite uses the signed `elo_1 - elo_2`. The model keeps this as written, and `Elo.AutoAdjustFactors` states its effect, a factor above 1.
- Merges on keys that the source assumes unique are modelled as lookups of the first matching row. The row order of pandas' sorted outer merge is not kept, which is harmless because every use of the result is a keyed lookup. Likewise `Overlap.ToiGroups` and `Overlap.PairGroups` list their rows in the order each key first appears, where `groupby(...).sum()` (`data_processing.py:230-234`) sorts the keys; every later use of those tables is a keyed merge, so the order does not matter.
- `test_with_lines.py` cannot run as written: `teamGame` is deleted at line 59 and read again at line 68, and `pct_col` and `line_col` (lines 85-93) are never defined. The model reads `pct_col` as the model's `winProba` for the line's team, `line_col` as the closing line `Close`, and `Win` as the team table's Win flag of that date and team.
- Two defects are modelled as written because the program's output depends on them. The on-ice engine (`Attribution.OnIceSlots`) takes a rule set: the program is the run with the as-written rules, under which a `BLOCK` counts for both sides and as unblocked on the penalty kill. The chunk engine (`Overlap.ProcessChunk`) matches zone starts to faceoffs on the game only (`Overlap.ZoneStartAsWritten`). The corrected rules are the other halves of the findings below, with the intended properties proved about them.
- `PlayerGameNum` (`data_processing.py:1271`) is the dense rank of `DateInt` within the team's season. Rows of later dates that have no rank keep their current rating.
- The `_add_lag` groups (`data_processing.py:1401-1404`, `1446-1449`) are by `Team` alone, so windows run across the three seasons kept at line 1400. The model keeps this.
- `aggregate_player_data` calls `math.ceil` (`data_processing.py:175`), but the module imports only pandas, numpy, `xG_model`, `os`, `gc` and `json` (lines 1-6). As written the call raises `NameError`. `Overlap.NumChunksCover` and `Overlap.ChunksPartition` model the intended ceiling of the id count over 10.

## Findings

| source | as written | input that shows it | evidently intended | confidence | as-written member | corrected member |
|---|---|---|---|---|---|---|
| data_processing.py:346 | `UnblockedShotAttempts_PK` counts `BLOCK`, so on the penalty kill unblocked attempts always equal attempts | a `BLOCK` at strength `4x5` gives UnblockedShotAttempts_PK = 1 | exclude `BLOCK`, as the 5v5 and PP columns do | not executed | Attribution.PenaltyKillUnblockedCountsBlocks | Attribution.TallyIn |
| data_processing.py:529-530 | a `BLOCK` sets both `HomeTeamEvent` and `AwayTeamEvent`, so on-ice players of both teams are credited the attempt for and against | a home-team `BLOCK` gives (1, 1) | the block counts for the shooting side only | not executed | Attribution.BlockCountsForBothSides | Attribution.TeamEventFlags |
| data_processing.py:487, 514 | primary and secondary assists and penalties drawn are left-merged onto the individual (p1) table, so a player with no p1 event in the game loses them | a goal by A assisted by B, who does nothing else, gives B 0 primary assists | credit every p2/p3 event to its player | not executed | Attribution.AssistDroppedWithoutIndividualRow | Attribution.PrimaryAssists |
| data_processing.py:261 | zone starts merge shifts with faceoff segments on `Game_Id` only, without the period | a period-2 shift over seconds 100-150 and a period-1 offensive-zone faceoff at second 120 give an O-zone start | match the period too | not executed | Overlap.ZoneStartIgnoresPeriod | Overlap.ZoneStartOf |

The row for lines 487 and 514 exhibits the loss with a primary assist. Secondary assists (the p3 role) and penalties drawn (the p2 role of a penalty) reach the individual table by the same left merge, so the same input with B as the third player, or as the player drawing a penalty, loses those events as written. `Attribution.SecondaryAssists` and `Attribution.PenaltiesDrawn` count them for every player, as intended.
