/**
 * Strength segments of a chunk of games: maximal stretches of play at one
 * game state, cut from the play-by-play rows that carry a home zone, and the
 * window a segment covers for shifts of a given period. The input is taken in
 * (game, period, second) order; shifts of a "previous"/"next" row run across
 * the whole chunk, as in the source.
 */
module Segments {
  import opened Wrappers
  import opened Seqs

  /** A play-by-play row as the segment builder reads it. */
  datatype PbpRow = PbpRow(
    gameId: int, period: int, strength: string, seconds: int,
    homeTeam: string, awayTeam: string, event: string, homeZone: Option<string>)

  /** One strength segment: a state that holds from `start` to `end` seconds. */
  datatype Segment = Segment(
    gameId: int, period: int, strength: Option<string>, start: int, end: int,
    event: string, homeZone: Option<string>, homeTeam: string, awayTeam: string)

  const PeriodEnd: int := 1200
  const OvertimeEnd: int := 300
  const ThreeOnThree: string := "3x3"

  /** String order of Python: lexicographic by code point, a proper prefix first. */
  predicate LexLess(a: string, b: string)
    decreases |a|
  {
    if |a| == 0 then |b| > 0
    else if |b| == 0 then false
    else if a[0] != b[0] then a[0] < b[0]
    else LexLess(a[1..], b[1..])
  }

  /** Two distinct strings are ordered one way, and never both ways. */
  lemma {:induction false} LexLessTotal(a: string, b: string)
    ensures a != b ==> LexLess(a, b) || LexLess(b, a)
    ensures !(LexLess(a, b) && LexLess(b, a))
    decreases |a|
  {
    if |a| > 0 && |b| > 0 && a[0] == b[0] {
      LexLessTotal(a[1..], b[1..]);
      if a != b {
        assert a == [a[0]] + a[1..] && b == [b[0]] + b[1..];
      }
    }
  }

  predicate SameSecond(a: PbpRow, b: PbpRow)
  {
    a.gameId == b.gameId && a.period == b.period && a.seconds == b.seconds
  }

  /**
   * Row `i` ranks first within its (game, period, second): its event name is
   * the smallest there, the earliest row winning a tie (pandas rank 'first').
   */
  predicate RanksFirst(rows: seq<PbpRow>, i: nat)
    requires i < |rows|
  {
    forall j :: 0 <= j < |rows| && j != i && SameSecond(rows[j], rows[i]) ==>
      LexLess(rows[i].event, rows[j].event) || (rows[i].event == rows[j].event && i < j)
  }

  /** The rows with a home zone that rank first in their second, in order. */
  function FirstPerSecond(rows: seq<PbpRow>): (d: seq<PbpRow>)
  {
    var z := Filter(rows, (r: PbpRow) => r.homeZone.Some?);
    KeepRanked(z, 0)
  }

  function KeepRanked(z: seq<PbpRow>, i: nat): (d: seq<PbpRow>)
    requires i <= |z|
    decreases |z| - i
  {
    if i == |z| then []
    else if RanksFirst(z, i) then [z[i]] + KeepRanked(z, i + 1)
    else KeepRanked(z, i + 1)
  }

  /** At most one row of a second ranks first. */
  lemma RanksFirstUnique(rows: seq<PbpRow>, i: nat, j: nat)
    requires i < |rows| && j < |rows| && SameSecond(rows[i], rows[j])
    requires RanksFirst(rows, i) && RanksFirst(rows, j)
    ensures i == j
  {
    if i != j {
      LexLessTotal(rows[i].event, rows[j].event);
      assert SameSecond(rows[i], rows[j]) && SameSecond(rows[j], rows[i]);
      assert false;
    }
  }

  /** Did the state change? NaN on either side compares unequal, as in pandas. */
  predicate Differs(a: Option<string>, b: Option<string>)
  {
    a.None? || b.None? || a.value != b.value
  }

  /** The state of row `i`: a penalty row takes the state of the row after it. */
  function ResolvedStrength(d: seq<PbpRow>, i: nat): Option<string>
    requires i < |d|
  {
    if d[i].event == "PENL" then (if i + 1 < |d| then Some(d[i + 1].strength) else None)
    else Some(d[i].strength)
  }

  /**
   * A row opens a segment when its (resolved) state differs from the raw state
   * of the row before it, or when it is the first second of period 1.
   */
  predicate OpensSegment(d: seq<PbpRow>, i: nat)
    requires i < |d|
  {
    var prev := if i > 0 then Some(d[i - 1].strength) else None;
    Differs(ResolvedStrength(d, i), prev) || (d[i].period == 1 && d[i].seconds == 0)
  }

  /** Indices (from `i` on) of the rows that open a segment, in increasing order. */
  function OpeningIndices(d: seq<PbpRow>, i: nat): (ks: seq<nat>)
    requires i <= |d|
    ensures forall m :: 0 <= m < |ks| ==> i <= ks[m] < |d| && OpensSegment(d, ks[m])
    ensures forall m, n :: 0 <= m < n < |ks| ==> ks[m] < ks[n]
    ensures forall k :: i <= k < |d| && OpensSegment(d, k) ==> k in ks
    decreases |d| - i
  {
    if i == |d| then []
    else if OpensSegment(d, i) then [i] + OpeningIndices(d, i + 1)
    else OpeningIndices(d, i + 1)
  }

  /**
   * The end of the segment opened by row `ks[j]`: the start of the next opening
   * in the chunk, else 1200; a 3-on-3 overtime segment ends at 300 when it is
   * last or the next opening is in another period.
   */
  function EndOf(d: seq<PbpRow>, ks: seq<nat>, j: nat): int
    requires j < |ks| && forall m :: 0 <= m < |ks| ==> ks[m] < |d|
  {
    var row := d[ks[j]];
    var end := if j + 1 < |ks| then d[ks[j + 1]].seconds else PeriodEnd;
    var nextPeriod: Option<int> := if j + 1 < |ks| then Some(d[ks[j + 1]].period) else None;
    var ot := row.period == 4 && ResolvedStrength(d, ks[j]) == Some(ThreeOnThree);
    if ot && end == PeriodEnd then OvertimeEnd
    else if ot && nextPeriod != Some(row.period) then OvertimeEnd
    else end
  }

  /** The strength segments of one chunk of play-by-play rows. */
  function BuildSegments(rows: seq<PbpRow>): (segs: seq<Segment>)
  {
    var d := FirstPerSecond(rows);
    var ks := OpeningIndices(d, 0);
    seq(|ks|, j requires 0 <= j < |ks| => Segment(
      d[ks[j]].gameId, d[ks[j]].period, ResolvedStrength(d, ks[j]), d[ks[j]].seconds, EndOf(d, ks, j),
      d[ks[j]].event, d[ks[j]].homeZone, d[ks[j]].homeTeam, d[ks[j]].awayTeam))
  }

  /**
   * Segments tile the chunk's timeline: each one ends where the next begins,
   * the last ends at 1200, except that a 3-on-3 overtime segment ends at 300
   * when the next one lies in another period or there is none.
   */
  lemma SegmentsChain(rows: seq<PbpRow>, j: nat)
    requires j < |BuildSegments(rows)|
    ensures var s := BuildSegments(rows);
      var ot := s[j].period == 4 && s[j].strength == Some(ThreeOnThree);
      (j + 1 < |s| && !(ot && (s[j + 1].start == PeriodEnd || s[j + 1].period != 4)) ==> s[j].end == s[j + 1].start) &&
      (j + 1 < |s| && ot && (s[j + 1].start == PeriodEnd || s[j + 1].period != 4) ==> s[j].end == OvertimeEnd) &&
      (j + 1 == |s| ==> s[j].end == if ot then OvertimeEnd else PeriodEnd)
  {
  }

  /** Segment `s` was opened by row `k` of the first-ranked rows `d`. */
  ghost predicate OpenedBy(d: seq<PbpRow>, k: nat, s: Segment)
  {
    k < |d| && OpensSegment(d, k) &&
    s.gameId == d[k].gameId && s.period == d[k].period && s.start == d[k].seconds &&
    s.event == d[k].event &&
    s.strength == (if d[k].event == "PENL" then (if k + 1 < |d| then Some(d[k + 1].strength) else None)
                   else Some(d[k].strength))
  }

  /**
   * Every segment comes from a first-ranked row that opens a segment; a
   * segment opened by a penalty carries the raw state of the row after it.
   */
  lemma SegmentOrigin(rows: seq<PbpRow>, j: nat)
    requires j < |BuildSegments(rows)|
    ensures exists k :: OpenedBy(FirstPerSecond(rows), k, BuildSegments(rows)[j])
  {
    var d := FirstPerSecond(rows);
    var ks := OpeningIndices(d, 0);
    assert OpenedBy(d, ks[j], BuildSegments(rows)[j]);
  }

  /** The window (start, end) of a segment for shifts of a given period. */
  datatype Window = Window(start: int, end: int)

  /**
   * The window a segment covers for a shift in period `shiftPeriod`, or none.
   * A segment whose end lies before its start ran into the next period: within
   * its own period it runs to 1200, and for a shift of any later period it
   * covers second 0 up to its end.
   */
  function WindowFor(seg: Segment, shiftPeriod: int): (w: Option<Window>)
  {
    var end := if seg.start > seg.end && shiftPeriod == seg.period then PeriodEnd else seg.end;
    if seg.start > end && shiftPeriod > seg.period then Some(Window(0, end))
    else if shiftPeriod == seg.period then Some(Window(seg.start, end))
    else None
  }

  /**
   * Windows in the segment's own period start at the segment's start and are
   * well ordered when the segment starts within the period; a segment that
   * wrapped into later periods covers [0, end) of EVERY later period, not only
   * the next one; an ordinary segment covers nothing outside its period.
   */
  lemma WindowCases(seg: Segment, p: int)
    ensures p == seg.period && seg.start <= PeriodEnd ==>
      WindowFor(seg, p).Some? && WindowFor(seg, p).value.start == seg.start
      && WindowFor(seg, p).value.start <= WindowFor(seg, p).value.end
    ensures p > seg.period && seg.start > seg.end ==> WindowFor(seg, p) == Some(Window(0, seg.end))
    ensures p != seg.period && seg.start <= seg.end ==> WindowFor(seg, p).None?
    ensures p < seg.period ==> WindowFor(seg, p).None?
    ensures p == seg.period ==>
      WindowFor(seg, p) == Some(Window(seg.start, if seg.start > seg.end then PeriodEnd else seg.end))
  {
  }
}
