# survivor — a Dafny model

The survivor puzzle seats people in a circle of chairs numbered 1..n. The
person in chair #1 leaves, the next is skipped, the next leaves, and so on
around the circle until one person remains. `survivor.js` answers it in two
ways and claims they agree:

- `calculateSurvivor(chairs, deleteHead)` is the brute force. Each round
  filters the array with `isSkipped`, which keeps odd indices when the head
  is deleted and even indices otherwise. The `deleteHead` flag flips exactly
  when the round's count was odd. It stops at one chair.
- `determineSurvivor(n)` is the "intelligent" method. A forward loop derives
  round descriptors `{deleteHead, chairs}` by halving the count. It rounds
  down when the head is deleted and up otherwise, and it stops at the first
  derived count of one. A backward loop then reverses the descriptors and
  folds their head flags into `before`, most significant bit first. The
  answer is `before + 1`.

The model is split into four modules:

- `Rounds` (rounds.dfy) holds what both methods share. This is the `Step`
  descriptor, the `isSkipped` filter (`Round`), the flag and halving rule
  (`NextStep`), and the n-fold derivation (`Iterate`).
- `BruteForce` (brute_force.dfy) is the brute force. It also defines the
  survivor's index recurrence: the index one round later is doubled, and one
  is added when the round deletes the head.
- `Intelligent` (intelligent.dfy) holds the two phases as functions, the
  two loops of `determineSurvivor` as methods, and the theorem that the fast method
  equals the brute force on chairs 1..n.
- `WorkedValues` (worked_values.dfy) holds the values the file's header
  reports.

In the source, `determineSurvivor` ignores its `numberOfChairs` parameter and
reads the enclosing `chairs.length` instead. The model takes the count `n`
as a parameter. The enclosing array is modelled as `Chairs(n)`, which is
[1..n]. The global loop counter `i` becomes a local variable. The brute
force's `chairs.pop()` in its base case is modelled as returning the single
element. In the script as written, that pop empties the global array
before `determineSurvivor` reads its length, so with `players = 1` the
forward loop would start from 0 chairs rather than 1. Either way it never
ends (NoSingleChairBelowTwo covers both counts). The XOR of a boolean with `count % 2` becomes `!=` on `bool`.

## Model

| member | source | states |
|---|---|---|
| Rounds.Round | survivor.js:76-78 | `Round` filters with `IsSkipped` (`isSkipped` in survivor.js). The filter's k-th element is the one at index 2k+1 (head deleted) or 2k (head kept), in order, and its length is ⌊c/2⌋ or ⌈c/2⌉ |
| Rounds.RoundKeepsSkipped | survivor.js:76-78 | conversely, every chair whose index `isSkipped` accepts survives the round, at half its index |
| Rounds.NextStep | survivor.js:117-122 | the new head flag is `NextDeleteHead` (the XOR with the count's parity, shared with survivor.js:86). A derived count is strictly smaller than a count of two or more and is at least one; from one or zero chairs it drops to zero, except that (false, 1) stays at one |
| Rounds.RoundLength | survivor.js:86 | the length of a brute-force round is the count the forward phase derives, so both methods halve the same way |
| Rounds.NoSingleChairBelowTwo | survivor.js:116-129 | starting from one chair (or none), every derived descriptor has zero chairs, so the loop's `step.chairs === 1` exit is never taken |
| BruteForce.CalculateSurvivor | survivor.js:63-87 | the survivor is one of the given chairs; with a single chair it is that chair |
| BruteForce.SurvivorIndex | survivor.js:80-86 | the survivor's index recurrence always yields an index inside the circle |
| BruteForce.SurvivorAtIndex | survivor.js:63-87 | for any chair numbers, the brute force returns the chair at the recurrence's index |
| Intelligent.Forward | survivor.js:110-129 | the descriptors start at the given one, end at a count of one, have at least two chairs before that, and strictly decrease in count |
| Intelligent.ForwardIterates | survivor.js:116-129 | descriptor i is the i-th derivation from the first, and no earlier derived descriptor has a count of one |
| Intelligent.TraceMatchesForward | survivor.js:86 | the head flags and array lengths of the brute force's successive calls are exactly the forward phase's descriptors |
| Intelligent.ForwardRoundBound | survivor.js:103-107 | the forward phase has at most CeilLog2(n) + 1 descriptors |
| Intelligent.CeilLog2Pow2 | survivor.js:103-107 | CeilLog2(c) is ⌈log2 c⌉: 2^(CeilLog2(c) - 1) < c ≤ 2^CeilLog2(c), so the bound above is ⌈log2 n⌉ + 1 |
| Intelligent.HornerReverse | survivor.js:131-142 | folding a reversed bit list most significant first gives the original list's value read least significant first |
| Intelligent.BackwardIsBinary | survivor.js:131-144 | the contract of `Backward`, which models the backward phase: it returns 1 + the binary number whose bit i is the head flag of descriptor i, leaving out the terminal descriptor |
| Intelligent.ForwardIndex | survivor.js:103-144 | the head flags of the forward phase are the bits of the survivor's 0-based index, least significant first |
| Intelligent.FastSurvivor | survivor.js:102-145 | for n ≥ 2 the two phases return the brute force's survivor on chairs 1..n, a chair in [1, n] |
| Intelligent.ForwardIsFirstSingleChair | survivor.js:116-129 | a run of derived descriptors that stops at its first count of one is the forward phase |
| Intelligent.ForwardLoop | survivor.js:109-129 | `determineSurvivor`'s push-until-one loop builds exactly the forward phase |
| Intelligent.BackwardLoop | survivor.js:131-144 | `determineSurvivor`'s reverse-and-fold loop returns 1 + the binary value of the non-terminal head flags |
| Intelligent.DetermineSurvivor | survivor.js:102-145 | for n ≥ 2 the two loops return the brute force's survivor on chairs 1..n, a chair in [1, n] |
| Intelligent.Descriptors | survivor.js:110-129 | corrected forward phase that checks the count before deriving: it starts at n, ends at one, and has at least two chairs before the end |
| Intelligent.SurvivorPosition | survivor.js:102-145 | corrected method for every n ≥ 1, one chair included: it equals the brute force on chairs 1..n and lies in [1, n] |
| WorkedValues.HundredChairs | survivor.js:23-27 | with 100 chairs both methods answer chair #72 |
| WorkedValues.MillionChairs | survivor.js:29-33 | with 1,000,000 chairs both methods answer chair #951424 |
| WorkedValues.SingleChair | survivor.js:64-66 | the brute force on one chair answers chair #1 |

## Left out

- The `console.time`, `console.log` and `console.timeEnd` calls (survivor.js:89-92, 147-150) are output and timing with no behaviour to verify.
- The IIFE wrapper and the loop that fills the global `chairs` array (survivor.js:37-51) are replaced by the parameter `n` and `Chairs(n)`.
- JavaScript numbers and `Math.floor`/`Math.ceil` on float division are modelled as `nat` with `c / 2` and `(c + 1) / 2`. These agree for every count the program reaches.
- BruteForce.CalculateSurvivor: requires at least one chair. On an empty array the source recurses forever, and no call from n ≥ 1 reaches it.
- Intelligent.DetermineSurvivor: requires n ≥ 2, as do FastSurvivor and ForwardLoop, because the forward loop of `determineSurvivor` never ends for n = 1 (see Findings). The count is a parameter, whereas survivor.js reads the enclosing array's length.
- A count below one is not rejected with an error, because the source does no input validation. For n = 0 both methods run forever: the brute force recurses on an empty array, and NoSingleChairBelowTwo covers the forward loop. The model therefore requires n ≥ 1 throughout.

## Findings

| source | as written | input that shows it | evidently intended | confidence | as-written member | corrected member |
|---|---|---|---|---|---|---|
| survivor.js:116-129 | the forward loop tests only derived descriptors for a count of one, never the initial one | n = 1: the first derived count is ⌊1/2⌋ = 0 and stays 0, so the loop never exits | one chair is its own survivor, and the answer is chair #1, as the brute force gives | medium, not executed | Rounds.NoSingleChairBelowTwo | Intelligent.SurvivorPosition |
