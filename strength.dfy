/**
 * Game-state strings such as "5x4": skaters of the home team, "x", skaters of
 * the away team. The pipeline flips a string character by character
 * (pandas `.str[::-1]`) to read it from the away team's side, so that "5x4"
 * always means the acting team is on the power play.
 */
module Strength {
  /** Character-wise reversal of a string. */
  function Reverse(s: string): (r: string)
    ensures |r| == |s|
    decreases s
  {
    if s == [] then [] else Reverse(s[1..]) + [s[0]]
  }

  /** Position `i` of the flipped string holds position `|s| - 1 - i` of the original. */
  lemma {:induction false} ReverseAt(s: string, i: nat)
    requires i < |s|
    ensures Reverse(s)[i] == s[|s| - 1 - i]
    decreases s
  {
    if i < |s| - 1 {
      ReverseAt(s[1..], i);
    }
  }

  /** Reversing twice gives the original string back. */
  lemma {:induction false} ReverseInvolution(s: string)
    ensures Reverse(Reverse(s)) == s
  {
    var r := Reverse(Reverse(s));
    forall i | 0 <= i < |s| ensures r[i] == s[i] {
      ReverseAt(Reverse(s), i);
      ReverseAt(s, |s| - 1 - i);
    }
  }

  /** The nine states that shots are modelled in. */
  const ModelledStates: set<string> := {"5x5", "4x5", "3x5", "5x4", "4x4", "5x3", "4x3", "3x4", "3x3"}
  /** Power-play states of the acting team. */
  const PowerPlay: set<string> := {"5x4", "5x3", "4x3"}
  /** Penalty-kill states of the acting team. */
  const PenaltyKill: set<string> := {"4x5", "3x5", "3x4"}
  /** Shootout marker. */
  const Shootout: string := "0x0"
  const EvenFive: string := "5x5"

  /** The state seen from the acting team: flipped when the acting team is the away team. */
  function ForActingTeam(strength: string, actingIsAway: bool): (r: string)
    ensures |r| == |strength|
    ensures actingIsAway ==> Reverse(r) == strength
    ensures !actingIsAway ==> r == strength
  {
    if actingIsAway then (ReverseInvolution(strength); Reverse(strength)) else strength
  }

  /** Flip of a three-character string "abc" is "cba". */
  lemma ReverseThree(a: char, b: char, c: char)
    ensures Reverse([a, b, c]) == [c, b, a]
  {
    assert [a, b, c][1..] == [b, c];
    assert [b, c][1..] == [c];
    assert [c][1..] == [];
    assert Reverse([c]) == [c];
    assert Reverse([b, c]) == [c, b];
  }

  /** The flip of each known state, read off the table of literals. */
  lemma FlipOfKnownState(s: string)
    requires s in ModelledStates || s == Shootout
    ensures Reverse(s) in ModelledStates || Reverse(s) == Shootout
    ensures s in PowerPlay <==> Reverse(s) in PenaltyKill
    ensures s in PenaltyKill <==> Reverse(s) in PowerPlay
    ensures s == EvenFive <==> Reverse(s) == EvenFive
    ensures s == Shootout <==> Reverse(s) == Shootout
  {
    assert |s| == 3;
    ReverseThree(s[0], s[1], s[2]);
    assert s == [s[0], s[1], s[2]];
  }

  /**
   * Flipping the point of view swaps power play and penalty kill, keeps the
   * even states, and keeps the set of modelled states.
   */
  lemma {:induction false} FlipSwapsPowerPlayAndPenaltyKill(s: string)
    ensures s in PowerPlay <==> Reverse(s) in PenaltyKill
    ensures s in PenaltyKill <==> Reverse(s) in PowerPlay
    ensures s in ModelledStates <==> Reverse(s) in ModelledStates
    ensures s == EvenFive <==> Reverse(s) == EvenFive
    ensures s == Shootout <==> Reverse(s) == Shootout
  {
    var r := Reverse(s);
    ReverseInvolution(s);
    if s in ModelledStates || s == Shootout {
      FlipOfKnownState(s);
    } else if r in ModelledStates || r == Shootout {
      FlipOfKnownState(r);
      assert false;
    }
  }
}
