/**
 The elimination round shared by both survivor computations: which chairs a
 round keeps, how many remain, and whether the next round removes the head
 of the circle.
 */
module Rounds {

  /** One round descriptor: whether the round removes the first remaining
      person (`deleteHead`) and how many chairs are occupied when it starts. */
  datatype Step = Step(deleteHead: bool, chairs: nat)

  /** The index parity a round keeps: odd indices when the head is removed,
      even indices when it is preserved. */
  function Parity(deleteHead: bool): nat {
    if deleteHead then 1 else 0
  }

  /** True when the person at `index` is skipped (stays seated) this round. */
  predicate IsSkipped(index: nat, deleteHead: bool) {
    index % 2 == Parity(deleteHead)
  }

  /** The head is removed in the next round exactly when it was removed in
      this one and the round had an even count, or it was preserved and the
      count was odd. */
  function NextDeleteHead(deleteHead: bool, count: nat): bool {
    deleteHead != (count % 2 == 1)
  }

  /** One brute-force round: the chairs whose index is skipped, in order. */
  function Round(chairs: seq<int>, deleteHead: bool): (r: seq<int>)
    ensures |r| == (|chairs| + 1 - Parity(deleteHead)) / 2
    ensures forall k :: 0 <= k < |r| ==>
              2 * k + Parity(deleteHead) < |chairs| && r[k] == chairs[2 * k + Parity(deleteHead)]
    decreases |chairs|
  {
    if |chairs| == 0 then []
    else
      var last := |chairs| - 1;
      Round(chairs[..last], deleteHead) + (if IsSkipped(last, deleteHead) then [chairs[last]] else [])
  }

  /** Every skipped chair survives the round, at half its index. */
  lemma RoundKeepsSkipped(chairs: seq<int>, deleteHead: bool, j: nat)
    requires j < |chairs| && IsSkipped(j, deleteHead)
    ensures j / 2 < |Round(chairs, deleteHead)| && Round(chairs, deleteHead)[j / 2] == chairs[j]
  {
    assert 2 * (j / 2) + Parity(deleteHead) == j;
  }

  /** Derive the next round's descriptor from the previous one: the count is
      halved, rounded down when the head is removed and up otherwise. */
  function NextStep(s: Step): (r: Step)
    ensures s.chairs >= 2 ==> 1 <= r.chairs < s.chairs
    ensures s.chairs <= 1 ==> r.chairs == (if s.chairs == 1 && !s.deleteHead then 1 else 0)
  {
    Step(NextDeleteHead(s.deleteHead, s.chairs),
         if s.deleteHead then s.chairs / 2 else (s.chairs + 1) / 2)
  }

  /** The halving of `NextStep` is exactly the length of a brute-force round. */
  lemma RoundLength(chairs: seq<int>, deleteHead: bool)
    ensures |Round(chairs, deleteHead)| == NextStep(Step(deleteHead, |chairs|)).chairs
  {
  }

  /** The descriptor reached after `k` derivations from `s`. */
  function Iterate(s: Step, k: nat): Step
    decreases k
  {
    if k == 0 then s else NextStep(Iterate(s, k - 1))
  }

  /** Starting from one chair or none, no derived descriptor ever has a count
      of one: the count drops to zero and stays there. */
  lemma {:induction false} NoSingleChairBelowTwo(n: nat, k: nat)
    requires n <= 1 && k >= 1
    ensures Iterate(Step(true, n), k).chairs == 0
    decreases k
  {
    if k > 1 {
      NoSingleChairBelowTwo(n, k - 1);
    }
  }
}
