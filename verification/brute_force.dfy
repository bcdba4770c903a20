/**
 The brute-force survivor: repeatedly keep every second chair of the circle
 until one chair is left.
 */
module BruteForce {
  import opened Rounds

  /** The chairs numbered 1..n, in circle order. */
  function Chairs(n: nat): (r: seq<int>)
    ensures |r| == n
  {
    seq(n, i => i + 1)
  }

  /** The chair left after eliminating every second person, starting by
      removing the head when `deleteHead` holds. */
  function CalculateSurvivor(chairs: seq<int>, deleteHead: bool): (r: int)
    requires |chairs| >= 1
    ensures r in chairs
    ensures |chairs| == 1 ==> r == chairs[0]
    decreases |chairs|
  {
    if |chairs| == 1 then chairs[0]
    else
      var next := Round(chairs, deleteHead);
      assert next[0] in chairs;
      CalculateSurvivor(next, NextDeleteHead(deleteHead, |chairs|))
  }

  /** The 0-based index of the survivor in a circle described by `s`: the
      survivor's index one round later, doubled, plus one if this round
      removes the head. */
  function SurvivorIndex(s: Step): (r: nat)
    requires s.chairs >= 1
    ensures r < s.chairs
    decreases s.chairs
  {
    if s.chairs == 1 then 0
    else 2 * SurvivorIndex(NextStep(s)) + Parity(s.deleteHead)
  }

  /** The brute force returns the chair at the survivor's index, whatever the
      chair numbers are. */
  lemma {:induction false} SurvivorAtIndex(chairs: seq<int>, deleteHead: bool)
    requires |chairs| >= 1
    ensures SurvivorIndex(Step(deleteHead, |chairs|)) < |chairs|
    ensures CalculateSurvivor(chairs, deleteHead) == chairs[SurvivorIndex(Step(deleteHead, |chairs|))]
    decreases |chairs|
  {
    if |chairs| > 1 {
      var next := Round(chairs, deleteHead);
      var nextHead := NextDeleteHead(deleteHead, |chairs|);
      assert NextStep(Step(deleteHead, |chairs|)) == Step(nextHead, |next|) by {
        RoundLength(chairs, deleteHead);
      }
      var k := SurvivorIndex(Step(nextHead, |next|));
      assert CalculateSurvivor(next, nextHead) == next[k] by {
        SurvivorAtIndex(next, nextHead);
      }
      assert SurvivorIndex(Step(deleteHead, |chairs|)) == 2 * k + Parity(deleteHead);
      assert next[k] == chairs[2 * k + Parity(deleteHead)];
    }
  }

  /** The round descriptors the brute force passes through: the head flag and
      the array length of every recursive call, down to the single chair. */
  function BruteTrace(chairs: seq<int>, deleteHead: bool): (r: seq<Step>)
    requires |chairs| >= 1
    ensures |r| >= 1 && r[0] == Step(deleteHead, |chairs|) && r[|r| - 1].chairs == 1
    decreases |chairs|
  {
    if |chairs| == 1 then [Step(deleteHead, 1)]
    else [Step(deleteHead, |chairs|)] + BruteTrace(Round(chairs, deleteHead), NextDeleteHead(deleteHead, |chairs|))
  }
}
