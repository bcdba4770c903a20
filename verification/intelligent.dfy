/**
 The "intelligent" survivor: derive the round descriptors from the count
 alone (forward phase), then read the survivor's index off their head flags
 as a binary number (backward phase).
 */
module Intelligent {
  import opened Rounds
  import opened BruteForce

  /** Forward phase: the descriptors from `s` on, each derived from the one
      before, up to and including the first one with a single chair. */
  function Forward(s: Step): (r: seq<Step>)
    requires s.chairs >= 2
    ensures |r| >= 2 && r[0] == s && r[|r| - 1].chairs == 1
    ensures forall i :: 0 <= i < |r| - 1 ==> r[i].chairs >= 2
    ensures forall i, j :: 0 <= i < j < |r| ==> r[j].chairs < r[i].chairs
    decreases s.chairs
  {
    var next := NextStep(s);
    [s] + if next.chairs == 1 then [next] else Forward(next)
  }

  /** The forward phase lists exactly the descriptors that the forward loop of
      `determineSurvivor` in survivor.js derives, stopping at the first derived
      count of one. */
  lemma {:induction false} ForwardIterates(s: Step)
    requires s.chairs >= 2
    ensures forall i :: 0 <= i < |Forward(s)| ==> Forward(s)[i] == Iterate(s, i)
    ensures forall i :: 1 <= i < |Forward(s)| - 1 ==> Iterate(s, i).chairs != 1
    decreases s.chairs
  {
    var next := NextStep(s);
    if next.chairs != 1 {
      ForwardIterates(next);
      forall i | 1 <= i < |Forward(s)|
        ensures Forward(s)[i] == Iterate(s, i)
      {
        IterateShift(s, i - 1);
      }
    }
  }

  /** Deriving `k` more descriptors after the first is deriving `k + 1`. */
  lemma {:induction false} IterateShift(s: Step, k: nat)
    ensures Iterate(NextStep(s), k) == Iterate(s, k + 1)
    decreases k
  {
    if k > 0 {
      IterateShift(s, k - 1);
    }
  }

  /** The counts of the forward phase are the lengths of the arrays the brute
      force recurses on, with the same head flags. */
  lemma {:induction false} TraceMatchesForward(chairs: seq<int>, deleteHead: bool)
    requires |chairs| >= 2
    ensures BruteTrace(chairs, deleteHead) == Forward(Step(deleteHead, |chairs|))
    decreases |chairs|
  {
    var next := Round(chairs, deleteHead);
    RoundLength(chairs, deleteHead);
    if |next| != 1 {
      TraceMatchesForward(next, NextDeleteHead(deleteHead, |chairs|));
    }
  }

  /** The number of halvings, rounding up, that bring `c` down to one. */
  function CeilLog2(c: nat): nat
    decreases c
  {
    if c <= 1 then 0 else 1 + CeilLog2((c + 1) / 2)
  }

  function Pow2(k: nat): (r: nat)
    ensures r >= 1
    decreases k
  {
    if k == 0 then 1 else 2 * Pow2(k - 1)
  }

  /** `CeilLog2(c)` is the base-2 logarithm of `c` rounded up: the least `k`
      with `c <= 2^k`. */
  lemma {:induction false} CeilLog2Pow2(c: nat)
    requires c >= 2
    ensures Pow2(CeilLog2(c) - 1) < c <= Pow2(CeilLog2(c))
    decreases c
  {
    var half := (c + 1) / 2;
    if half >= 2 {
      CeilLog2Pow2(half);
    }
  }

  lemma {:induction false} CeilLog2Monotone(a: nat, b: nat)
    requires a <= b
    ensures CeilLog2(a) <= CeilLog2(b)
    decreases b
  {
    if a > 1 {
      CeilLog2Monotone((a + 1) / 2, (b + 1) / 2);
    }
  }

  /** The forward phase has at most one descriptor per halving plus the
      terminal one. */
  lemma {:induction false} ForwardRoundBound(s: Step)
    requires s.chairs >= 2
    ensures |Forward(s)| <= CeilLog2(s.chairs) + 1
    decreases s.chairs
  {
    var next := NextStep(s);
    var half := (s.chairs + 1) / 2;
    assert next.chairs <= half;
    assert CeilLog2(s.chairs) == 1 + CeilLog2(half);
    CeilLog2Monotone(next.chairs, half);
    if next.chairs != 1 {
      ForwardRoundBound(next);
    }
  }

  /** The head flags of a list of descriptors. */
  function Flags(steps: seq<Step>): (r: seq<bool>)
    ensures |r| == |steps|
  {
    seq(|steps|, i requires 0 <= i < |steps| => steps[i].deleteHead)
  }

  function Reverse<T>(s: seq<T>): (r: seq<T>)
    ensures |r| == |s|
    ensures forall i :: 0 <= i < |s| ==> r[i] == s[|s| - 1 - i]
    decreases |s|
  {
    if |s| == 0 then [] else Reverse(s[1..]) + [s[0]]
  }

  /** Reading bits most significant first: shift left, then add the bit. */
  function Horner(bits: seq<bool>): nat
    decreases |bits|
  {
    if |bits| == 0 then 0
    else 2 * Horner(bits[..|bits| - 1]) + (if bits[|bits| - 1] then 1 else 0)
  }

  /** The value of `bits` read least significant first. */
  function Binary(bits: seq<bool>): nat
    decreases |bits|
  {
    if |bits| == 0 then 0 else (if bits[0] then 1 else 0) + 2 * Binary(bits[1..])
  }

  /** Reading a reversed bit string most significant first is reading the
      original least significant first. */
  lemma {:induction false} HornerReverse(bits: seq<bool>)
    ensures Horner(Reverse(bits)) == Binary(bits)
    decreases |bits|
  {
    if |bits| > 0 {
      var rev := Reverse(bits);
      assert rev[..|rev| - 1] == Reverse(bits[1..]);
      HornerReverse(bits[1..]);
    }
  }

  /** Backward phase: reverse the descriptors, skip the terminal one, fold
      the head flags into `before`, and return the chair after it. */
  function Backward(steps: seq<Step>): nat
    requires |steps| >= 1
  {
    Horner(Flags(Reverse(steps)[1..])) + 1
  }

  /** The backward phase returns one more than the binary number whose bit
      `i` is the head flag of descriptor `i`, terminal descriptor excluded. */
  lemma BackwardIsBinary(steps: seq<Step>)
    requires |steps| >= 1
    ensures Backward(steps) == Binary(Flags(steps[..|steps| - 1])) + 1
  {
    var body := steps[..|steps| - 1];
    assert Flags(Reverse(steps)[1..]) == Reverse(Flags(body));
    HornerReverse(Flags(body));
  }

  /** Prepending a descriptor prepends its head flag as the lowest bit. */
  lemma BinaryCons(s: Step, steps: seq<Step>)
    ensures Binary(Flags([s] + steps)) == Parity(s.deleteHead) + 2 * Binary(Flags(steps))
  {
    assert Flags([s] + steps)[1..] == Flags(steps);
  }

  /** The head flags of the forward phase are the bits of the survivor's
      index, least significant first. */
  lemma {:induction false} ForwardIndex(s: Step)
    requires s.chairs >= 2
    ensures Binary(Flags(Forward(s)[..|Forward(s)| - 1])) == SurvivorIndex(s)
    decreases s.chairs
  {
    var next := NextStep(s);
    var body := Forward(s)[..|Forward(s)| - 1];
    if next.chairs == 1 {
      assert body == [s] + [];
      BinaryCons(s, []);
    } else {
      var rest := Forward(next);
      ForwardIndex(next);
      assert body == [s] + rest[..|rest| - 1];
      BinaryCons(s, rest[..|rest| - 1]);
    }
  }

  /** The intelligent method as a function of the number of chairs: it agrees
      with the brute force on chairs 1..n. */
  function FastSurvivor(n: nat): (r: nat)
    requires n >= 2
    ensures r == CalculateSurvivor(Chairs(n), true)
    ensures 1 <= r <= n
  {
    var steps := Forward(Step(true, n));
    BackwardIsBinary(steps);
    ForwardIndex(Step(true, n));
    SurvivorAtIndex(Chairs(n), true);
    Backward(steps)
  }

  /** A run of derived descriptors that stops at its first count of one is
      the forward phase. */
  lemma ForwardIsFirstSingleChair(s: Step, steps: seq<Step>)
    requires s.chairs >= 2 && |steps| >= 1
    requires forall i :: 0 <= i < |steps| ==> steps[i] == Iterate(s, i)
    requires forall i :: 0 <= i < |steps| - 1 ==> steps[i].chairs != 1
    requires steps[|steps| - 1].chairs == 1
    ensures steps == Forward(s)
  {
    var f := Forward(s);
    ForwardIterates(s);
    if |steps| < |f| {
      assert false;
    } else if |steps| > |f| {
      assert false;
    }
  }

  /** The descriptors when the count is checked before a descriptor is
      derived: a single chair is already the terminal descriptor. */
  function Descriptors(n: nat): (r: seq<Step>)
    requires n >= 1
    ensures |r| >= 1 && r[0] == Step(true, n) && r[|r| - 1].chairs == 1
    ensures forall i :: 0 <= i < |r| - 1 ==> r[i].chairs >= 2
  {
    if n == 1 then [Step(true, 1)] else Forward(Step(true, n))
  }

  /** The intelligent method for every positive count, one chair included:
      it agrees with the brute force on chairs 1..n. */
  function SurvivorPosition(n: nat): (r: nat)
    requires n >= 1
    ensures r == CalculateSurvivor(Chairs(n), true)
    ensures 1 <= r <= n
  {
    if n == 1 then
      assert Flags(Descriptors(1)[..0]) == [];
      Backward(Descriptors(n))
    else
      assert Backward(Descriptors(n)) == FastSurvivor(n);
      Backward(Descriptors(n))
  }

  /** The forward loop of `determineSurvivor` in survivor.js: push derived
      descriptors until one has a single chair. */
  method ForwardLoop(n: nat) returns (steps: seq<Step>)
    requires n >= 2
    ensures steps == Forward(Step(true, n))
  {
    steps := [Step(true, n)];
    while true
      invariant |steps| >= 1
      invariant forall i :: 0 <= i < |steps| ==> steps[i] == Iterate(Step(true, n), i)
      invariant forall i :: 0 <= i < |steps| ==> steps[i].chairs >= 2
      decreases steps[|steps| - 1].chairs
    {
      var previous := steps[|steps| - 1];
      var step := NextStep(previous);
      steps := steps + [step];
      if step.chairs == 1 {
        break;
      }
    }
    ForwardIsFirstSingleChair(Step(true, n), steps);
  }

  /** The backward loop of `determineSurvivor` in survivor.js: reverse the
      descriptors and fold the head flags of all but the first into `before`. */
  method BackwardLoop(steps: seq<Step>) returns (survivor: nat)
    requires |steps| >= 1
    ensures survivor == Binary(Flags(steps[..|steps| - 1])) + 1
  {
    var reversed := Reverse(steps);
    var before := 0;
    var i := 1;
    while i < |reversed|
      invariant 1 <= i <= |reversed|
      invariant before == Horner(Flags(reversed[1..i]))
    {
      assert Flags(reversed[1..i + 1])[..i - 1] == Flags(reversed[1..i]);
      before := before * 2;
      if reversed[i].deleteHead {
        before := before + 1;
      }
      i := i + 1;
    }
    assert reversed[1..i] == Reverse(steps)[1..];
    survivor := before + 1;
    BackwardIsBinary(steps);
  }

  /** The intelligent method: the forward loop, then the backward loop. */
  method DetermineSurvivor(n: nat) returns (survivor: nat)
    requires n >= 2
    ensures survivor == CalculateSurvivor(Chairs(n), true)
    ensures 1 <= survivor <= n
  {
    var steps := ForwardLoop(n);
    survivor := BackwardLoop(steps);
    assert survivor == FastSurvivor(n) by {
      BackwardIsBinary(steps);
    }
  }
}
