/**
 Linear bounds over whole runs: weights on places that no firing raises bound the weighted
 tokens of every reachable marking, whatever is drained, reset or forwarded.
 */
module LinearBounds {
  import opened OutputSpecs
  import opened PetriNets
  import opened Wrappers

  type Weights = seq<nat>

  ghost function Dot(y: Weights, m: seq<int>): int
    requires |y| == |m|
  {
    if m == [] then 0 else Dot(y[..|m| - 1], m[..|m| - 1]) + y[|m| - 1] * m[|m| - 1]
  }

  lemma {:induction false} DotSum(y: Weights, a: seq<int>, b: seq<int>, c: seq<int>)
    requires |y| == |a| == |b| == |c| && forall q :: 0 <= q < |a| ==> c[q] == a[q] + b[q]
    ensures Dot(y, c) == Dot(y, a) + Dot(y, b)
  {
    if a != [] {
      var n := |a| - 1;
      DotSum(y[..n], a[..n], b[..n], c[..n]);
      assert y[n] * c[n] == y[n] * a[n] + y[n] * b[n];
    }
  }

  lemma {:induction false} DotMonotone(y: Weights, a: seq<int>, b: seq<int>)
    requires |y| == |a| == |b| && forall q :: 0 <= q < |a| ==> y[q] * a[q] <= y[q] * b[q]
    ensures Dot(y, a) <= Dot(y, b)
  {
    if a != [] {
      var n := |a| - 1;
      assert y[n] * a[n] <= y[n] * b[n];
      forall q | 0 <= q < n
        ensures y[..n][q] * a[..n][q] <= y[..n][q] * b[..n][q]
      {
        assert y[q] * a[q] <= y[q] * b[q];
      }
      DotMonotone(y[..n], a[..n], b[..n]);
    }
  }

  lemma {:induction false} DotZero(y: Weights, a: seq<int>)
    requires |y| == |a| && forall q :: 0 <= q < |a| ==> a[q] == 0
    ensures Dot(y, a) == 0
  {
    if a != [] {
      DotZero(y[..|a| - 1], a[..|a| - 1]);
    }
  }

  /** Changing one entry by `k` changes the sum by its weight times `k`. */
  lemma {:induction false} DotUpdate(y: Weights, a: seq<int>, b: seq<int>, p: nat, k: int)
    requires |y| == |a| == |b| && p < |a|
    requires b[p] == a[p] + k && forall q :: 0 <= q < |a| && q != p ==> b[q] == a[q]
    ensures Dot(y, b) == Dot(y, a) + y[p] * k
  {
    var n := |a| - 1;
    if p == n {
      assert a[..n] == b[..n];
      assert y[n] * b[n] == y[n] * a[n] + y[n] * k;
    } else {
      DotUpdate(y[..n], a[..n], b[..n], p, k);
    }
  }

  // ----- what a firing adds and removes ----------------------------------------------

  /** The weight of the tokens a branch deposits, forwards aside. */
  ghost function Deposited(y: Weights, b: Branch): int {
    if b == [] then 0
    else
      var l := b[|b| - 1];
      Deposited(y, b[..|b| - 1]) + if l.Deposit? && l.place < |y| then y[l.place] else 0
  }

  /** The weight one token of `p` has where the branch forwards it, summed over the forwards. */
  ghost function Forwarded(y: Weights, b: Branch, p: nat): nat {
    if b == [] then 0
    else
      var l := b[|b| - 1];
      Forwarded(y, b[..|b| - 1], p) + if l.Pass? && l.from == p && l.to < |y| then y[l.to] else 0
  }

  /** The change if every input takes exactly what it requires. */
  ghost function Balance(y: Weights, b: Branch, inputs: seq<(nat, Card)>): int {
    if inputs == [] then Deposited(y, b)
    else
      var (p, c) := inputs[|inputs| - 1];
      Balance(y, b, inputs[..|inputs| - 1]) + if p < |y| then Required(c) * (Forwarded(y, b, p) - y[p]) else 0
  }

  ghost predicate Drains(c: Card) {
    c.All? || c.AtLeast?
  }

  /** No place is an input twice, and every input needs a token. */
  ghost predicate Sound(t: Transition) {
    && (forall i, j :: 0 <= i < j < |t.inputs| ==> t.inputs[i].0 != t.inputs[j].0)
    && (forall i :: 0 <= i < |t.inputs| ==> Required(t.inputs[i].1) >= 1)
  }

  /**
   No outcome of `t` raises the weight: not when it takes just what it requires, and not by
   forwarding the surplus of a drained input.
   */
  ghost predicate NeverRaises(y: Weights, t: Transition) {
    forall b :: b in Outcomes(t) ==> Balance(y, b, t.inputs) <= 0 && DrainsSafely(y, b, t.inputs)
  }

  ghost predicate DrainsSafely(y: Weights, b: Branch, inputs: seq<(nat, Card)>) {
    forall i :: 0 <= i < |inputs| && inputs[i].0 < |y| && Drains(inputs[i].1) ==> Forwarded(y, b, inputs[i].0) <= y[inputs[i].0]
  }

  /** Every outcome of `t` leaves the weight as it is: drained surplus and resets weigh nothing. */
  ghost predicate AlwaysBalances(y: Weights, t: Transition) {
    && (forall b :: b in Outcomes(t) ==> Balance(y, b, t.inputs) == 0 && DrainsEvenly(y, b, t.inputs))
    && (forall i :: 0 <= i < |t.resets| && t.resets[i] < |y| ==> y[t.resets[i]] == 0)
  }

  ghost predicate DrainsEvenly(y: Weights, b: Branch, inputs: seq<(nat, Card)>) {
    forall i :: 0 <= i < |inputs| && inputs[i].0 < |y| && Drains(inputs[i].1) ==> Forwarded(y, b, inputs[i].0) == y[inputs[i].0]
  }

  ghost predicate NonNegative(m: Marking) {
    forall q :: 0 <= q < |m| ==> m[q] >= 0
  }

  // ----- the sums, input by input and leaf by leaf -----------------------------------

  ghost function TakenAll(inputs: seq<(nat, Card)>, m: Marking): (r: seq<int>)
    ensures |r| == |m|
  {
    seq(|m|, q requires 0 <= q < |m| => Taken(inputs, m, q))
  }

  ghost function GivenAll(b: Branch, inputs: seq<(nat, Card)>, m: Marking): (r: seq<int>)
    ensures |r| == |m|
  {
    seq(|m|, q requires 0 <= q < |m| => Given(b, inputs, m, q))
  }

  /** The weight of what the inputs take. */
  ghost function TakenWeight(y: Weights, inputs: seq<(nat, Card)>, m: Marking): int
    requires |y| == |m|
  {
    if inputs == [] then 0
    else
      var (p, c) := inputs[|inputs| - 1];
      TakenWeight(y, inputs[..|inputs| - 1], m) + if p < |m| then y[p] * Take(c, m[p]) else 0
  }

  lemma {:induction false} DotTaken(y: Weights, inputs: seq<(nat, Card)>, m: Marking)
    requires |y| == |m|
    ensures Dot(y, TakenAll(inputs, m)) == TakenWeight(y, inputs, m)
  {
    if inputs == [] {
      DotZero(y, TakenAll(inputs, m));
    } else {
      var first := inputs[..|inputs| - 1];
      var (p, c) := inputs[|inputs| - 1];
      DotTaken(y, first, m);
      if p < |m| {
        DotUpdate(y, TakenAll(first, m), TakenAll(inputs, m), p, Take(c, m[p]));
      } else {
        assert TakenAll(first, m) == TakenAll(inputs, m);
      }
    }
  }

  /** The weight of what the branch gives. */
  ghost function GivenWeight(y: Weights, b: Branch, inputs: seq<(nat, Card)>, m: Marking): int
    requires |y| == |m|
  {
    if b == [] then 0
    else
      GivenWeight(y, b[..|b| - 1], inputs, m) +
      match b[|b| - 1]
      case Deposit(p) => if p < |m| then y[p] else 0
      case Pass(from, to) => if to < |m| then y[to] * Passed(inputs, m, from) else 0
  }

  lemma {:induction false} DotGiven(y: Weights, b: Branch, inputs: seq<(nat, Card)>, m: Marking)
    requires |y| == |m|
    ensures Dot(y, GivenAll(b, inputs, m)) == GivenWeight(y, b, inputs, m)
  {
    if b == [] {
      DotZero(y, GivenAll(b, inputs, m));
    } else {
      var first := b[..|b| - 1];
      DotGiven(y, first, inputs, m);
      var p := LeafPlace(b[|b| - 1]);
      if p < |m| {
        DotUpdate(y, GivenAll(first, inputs, m), GivenAll(b, inputs, m), p, LeafGives(b[|b| - 1], inputs, m, p));
      } else {
        assert GivenAll(first, inputs, m) == GivenAll(b, inputs, m);
      }
    }
  }

  /** One more input on a new place: its tokens weigh what the forwards make of them. */
  lemma {:induction false} GivenWithInput(y: Weights, b: Branch, inputs: seq<(nat, Card)>, p: nat, c: Card, m: Marking)
    requires |y| == |m| && p < |m|
    requires forall i :: 0 <= i < |inputs| ==> inputs[i].0 != p
    ensures GivenWeight(y, b, inputs + [(p, c)], m) == GivenWeight(y, b, inputs, m) + Forwarded(y, b, p) * Take(c, m[p])
  {
    var more := inputs + [(p, c)];
    assert more[..|more| - 1] == inputs;
    if b != [] {
      var first, l := b[..|b| - 1], b[|b| - 1];
      GivenWithInput(y, first, inputs, p, c, m);
      if l.Pass? && l.from == p && l.to < |y| {
        NotPassed(inputs, m, p);
        assert (Forwarded(y, first, p) + y[l.to]) * Take(c, m[p]) ==
               Forwarded(y, first, p) * Take(c, m[p]) + y[l.to] * Take(c, m[p]);
      }
    }
  }

  lemma {:induction false} NotPassed(inputs: seq<(nat, Card)>, m: Marking, p: nat)
    requires forall i :: 0 <= i < |inputs| ==> inputs[i].0 != p
    ensures Passed(inputs, m, p) == 0
  {
    if inputs != [] {
      NotPassed(inputs[..|inputs| - 1], m, p);
    }
  }

  lemma {:induction false} GivenWithoutInputs(y: Weights, b: Branch, m: Marking)
    requires |y| == |m|
    ensures GivenWeight(y, b, [], m) == Deposited(y, b)
  {
    if b != [] {
      GivenWithoutInputs(y, b[..|b| - 1], m);
    }
  }

  /** What the inputs take beyond what they require, weighed by what it becomes. */
  ghost function SurplusWeight(y: Weights, b: Branch, inputs: seq<(nat, Card)>, m: Marking): int
    requires |y| == |m|
  {
    if inputs == [] then 0
    else
      var (p, c) := inputs[|inputs| - 1];
      SurplusWeight(y, b, inputs[..|inputs| - 1], m) +
      if p < |m| then (Take(c, m[p]) - Required(c)) * (Forwarded(y, b, p) - y[p]) else 0
  }

  /** What a transition changes is exactly its balance and the surplus it takes. */
  lemma {:induction false} ChangeIsBalance(y: Weights, b: Branch, inputs: seq<(nat, Card)>, m: Marking)
    requires |y| == |m| && forall i :: 0 <= i < |inputs| ==> inputs[i].0 < |m|
    requires forall i, j :: 0 <= i < j < |inputs| ==> inputs[i].0 != inputs[j].0
    ensures GivenWeight(y, b, inputs, m) - TakenWeight(y, inputs, m) ==
            Balance(y, b, inputs) + SurplusWeight(y, b, inputs, m)
  {
    if inputs == [] {
      GivenWithoutInputs(y, b, m);
    } else {
      var first := inputs[..|inputs| - 1];
      var (p, c) := inputs[|inputs| - 1];
      ChangeIsBalance(y, b, first, m);
      assert inputs == first + [(p, c)];
      GivenWithInput(y, b, first, p, c, m);
      assert inputs[|inputs| - 1].0 == p;
      Split(Forwarded(y, b, p), y[p], Take(c, m[p]), Required(c));
    }
  }

  lemma Split(f: int, w: int, taken: int, required: int)
    ensures f * taken - w * taken == required * (f - w) + (taken - required) * (f - w)
  {
  }

  /** The surplus adds no weight if drains are safe, and none at all if they are even. */
  lemma {:induction false} SurplusSign(y: Weights, b: Branch, inputs: seq<(nat, Card)>, m: Marking)
    requires |y| == |m| && DrainsSafely(y, b, inputs)
    requires forall i :: 0 <= i < |inputs| ==> inputs[i].0 < |m| && m[inputs[i].0] >= Required(inputs[i].1)
    ensures SurplusWeight(y, b, inputs, m) <= 0
    ensures DrainsEvenly(y, b, inputs) ==> SurplusWeight(y, b, inputs, m) == 0
  {
    if inputs != [] {
      var (p, c) := inputs[|inputs| - 1];
      SurplusSign(y, b, inputs[..|inputs| - 1], m);
      assert inputs[|inputs| - 1].0 == p && m[p] >= Required(c);
      NoGain(Take(c, m[p]) - Required(c), Forwarded(y, b, p) - y[p]);
    }
  }

  lemma NoGain(surplus: nat, gain: int)
    requires surplus == 0 || gain <= 0
    ensures surplus * gain <= 0
    ensures surplus == 0 || gain == 0 ==> surplus * gain == 0
  {
  }

  // ----- one firing ------------------------------------------------------------------

  /** An input place keeps what it has beyond what was taken, which is not less than nothing. */
  lemma {:induction false} TakesWhatIsThere(inputs: seq<(nat, Card)>, m: Marking, q: nat)
    requires q < |m| && NonNegative(m)
    requires forall i :: 0 <= i < |inputs| ==> inputs[i].0 < |m| && m[inputs[i].0] >= Required(inputs[i].1) >= 1
    requires forall i, j :: 0 <= i < j < |inputs| ==> inputs[i].0 != inputs[j].0
    ensures 0 <= Taken(inputs, m, q) <= m[q]
    ensures (forall i :: 0 <= i < |inputs| ==> inputs[i].0 != q) ==> Taken(inputs, m, q) == 0
  {
    if inputs != [] {
      TakesWhatIsThere(inputs[..|inputs| - 1], m, q);
    }
  }

  lemma {:induction false} GivesNoDebt(b: Branch, inputs: seq<(nat, Card)>, m: Marking, q: nat)
    requires forall p :: Passed(inputs, m, p) >= 0
    ensures Given(b, inputs, m, q) >= 0
  {
    if b != [] {
      GivesNoDebt(b[..|b| - 1], inputs, m, q);
    }
  }

  lemma {:induction false} PassesNoDebt(inputs: seq<(nat, Card)>, m: Marking, p: nat)
    requires NonNegative(m) && forall i :: 0 <= i < |inputs| ==> Required(inputs[i].1) >= 1
    ensures Passed(inputs, m, p) >= 0
  {
    if inputs != [] {
      PassesNoDebt(inputs[..|inputs| - 1], m, p);
    }
  }

  /** Token counts never go below zero. */
  lemma FiringKeepsCounts(t: Transition, m: Marking, b: Branch)
    requires Sound(t) && TransitionInside(t, |m|) && Enabled(t, m) && NonNegative(m)
    ensures NonNegative(Fire(t, m, b))
  {
    forall p
      ensures Passed(t.inputs, m, p) >= 0
    {
      PassesNoDebt(t.inputs, m, p);
    }
    forall q | 0 <= q < |m|
      ensures Fire(t, m, b)[q] >= 0
    {
      TakesWhatIsThere(t.inputs, m, q);
      GivesNoDebt(b, t.inputs, m, q);
    }
  }

  ghost function KeptAll(t: Transition, m: Marking): (r: seq<int>)
    ensures |r| == |m|
  {
    seq(|m|, q requires 0 <= q < |m| => Kept(t, m, q))
  }

  /** What the inputs leave, before the resets. */
  ghost function LeftAll(t: Transition, m: Marking): (r: seq<int>)
    ensures |r| == |m|
  {
    seq(|m|, q requires 0 <= q < |m| => m[q] - Taken(t.inputs, m, q))
  }

  lemma ResetWeighsNoMore(y: Weights, t: Transition, m: Marking, q: nat)
    requires |y| == |m| && q < |m| && Sound(t) && TransitionInside(t, |m|) && Enabled(t, m) && NonNegative(m)
    ensures y[q] * KeptAll(t, m)[q] <= y[q] * LeftAll(t, m)[q]
    ensures q !in t.resets || y[q] == 0 ==> y[q] * KeptAll(t, m)[q] == y[q] * LeftAll(t, m)[q]
  {
    TakesWhatIsThere(t.inputs, m, q);
    Times(y[q], KeptAll(t, m)[q], LeftAll(t, m)[q]);
  }

  lemma Times(w: nat, a: int, b: int)
    requires a <= b
    ensures w * a <= w * b
  {
  }

  lemma KeptWeight(y: Weights, t: Transition, m: Marking)
    requires |y| == |m| && Sound(t) && TransitionInside(t, |m|) && Enabled(t, m) && NonNegative(m)
    ensures Dot(y, KeptAll(t, m)) <= Dot(y, LeftAll(t, m))
    ensures (forall i :: 0 <= i < |t.resets| ==> y[t.resets[i]] == 0) ==> Dot(y, KeptAll(t, m)) == Dot(y, LeftAll(t, m))
  {
    forall q | 0 <= q < |m|
      ensures y[q] * KeptAll(t, m)[q] <= y[q] * LeftAll(t, m)[q]
      ensures q !in t.resets || y[q] == 0 ==> y[q] * KeptAll(t, m)[q] == y[q] * LeftAll(t, m)[q]
    {
      ResetWeighsNoMore(y, t, m, q);
    }
    DotMonotone(y, KeptAll(t, m), LeftAll(t, m));
    if forall i :: 0 <= i < |t.resets| ==> y[t.resets[i]] == 0 {
      forall q | 0 <= q < |m|
        ensures y[q] * LeftAll(t, m)[q] <= y[q] * KeptAll(t, m)[q]
      {
        assert q in t.resets ==> y[q] == 0;
      }
      DotMonotone(y, LeftAll(t, m), KeptAll(t, m));
    }
  }

  lemma FiringWeight(y: Weights, t: Transition, m: Marking, b: Branch)
    requires |y| == |m| && Sound(t) && TransitionInside(t, |m|) && Enabled(t, m) && NonNegative(m)
    requires b in Outcomes(t)
    ensures NeverRaises(y, t) ==> Dot(y, Fire(t, m, b)) <= Dot(y, m)
    ensures AlwaysBalances(y, t) ==> Dot(y, Fire(t, m, b)) == Dot(y, m)
  {
    KeptWeight(y, t, m);
    DotTaken(y, t.inputs, m);
    DotSum(y, LeftAll(t, m), TakenAll(t.inputs, m), m);
    DotGiven(y, b, t.inputs, m);
    DotSum(y, KeptAll(t, m), GivenAll(b, t.inputs, m), Fire(t, m, b));
    ChangeIsBalance(y, b, t.inputs, m);
    if DrainsSafely(y, b, t.inputs) {
      SurplusSign(y, b, t.inputs, m);
    }
  }

  // ----- the condition is exact ------------------------------------------------------

  /** Some marking enables `t`: it inhibits on nothing it needs. */
  ghost predicate CanBeEnabled(t: Transition) {
    forall h :: h in t.inhibitors ==> h !in t.readArcs && forall i :: 0 <= i < |t.inputs| ==> t.inputs[i].0 != h
  }

  /** A place that is read and reset, and no input, weighs nothing. */
  ghost predicate ResetsWeighNothing(y: Weights, t: Transition) {
    forall q :: q in t.readArcs && q in t.resets && q < |y| && (forall i :: 0 <= i < |t.inputs| ==> t.inputs[i].0 != q) ==> y[q] == 0
  }

  /** No firing of `t` from any marking whatsoever raises the weight. */
  ghost predicate NoFiringRaises(y: Weights, t: Transition)
    requires TransitionInside(t, |y|)
  {
    forall m, b {:trigger Fire(t, m, b)} ::
      |m| == |y| && NonNegative(m) && Enabled(t, m) && b in Outcomes(t) ==> Dot(y, Fire(t, m, b)) <= Dot(y, m)
  }

  /** The tokens `t` needs on `q`, and `k` more on `p`. */
  ghost function Needs(t: Transition, q: nat, p: nat, k: nat): int {
    var extra := if q == p then k else 0;
    if i :| 0 <= i < |t.inputs| && t.inputs[i].0 == q then Required(t.inputs[i].1) + extra
    else if q in t.readArcs then 1 + extra
    else extra
  }

  ghost function LeastMarking(t: Transition, n: nat, p: nat, k: nat): (m: Marking)
    ensures |m| == n && forall q :: 0 <= q < n ==> m[q] == Needs(t, q, p, k)
  {
    seq(n, q requires 0 <= q < n => Needs(t, q, p, k))
  }

  /** `p` is an input that drains, or there are no tokens to spare. */
  ghost predicate Drained(t: Transition, p: nat, k: nat) {
    k == 0 || exists i :: 0 <= i < |t.inputs| && t.inputs[i].0 == p && Drains(t.inputs[i].1)
  }

  lemma LeastEnables(t: Transition, n: nat, p: nat, k: nat)
    requires TransitionInside(t, n) && Sound(t) && CanBeEnabled(t) && (Drained(t, p, k) || p !in t.inhibitors)
    ensures NonNegative(LeastMarking(t, n, p, k)) && Enabled(t, LeastMarking(t, n, p, k))
    ensures forall i :: 0 <= i < |t.inputs| ==>
      LeastMarking(t, n, p, k)[t.inputs[i].0] == Required(t.inputs[i].1) + if t.inputs[i].0 == p then k else 0
  {
    forall i | 0 <= i < |t.inputs|
      ensures Needs(t, t.inputs[i].0, p, k) == Required(t.inputs[i].1) + if t.inputs[i].0 == p then k else 0
    {
      NeedsOfInput(t, i, p, k);
    }
    forall h | h in t.inhibitors
      ensures Needs(t, h, p, k) == 0
    {
    }
  }

  lemma NeedsOfInput(t: Transition, i: nat, p: nat, k: nat)
    requires Sound(t) && i < |t.inputs|
    ensures Needs(t, t.inputs[i].0, p, k) == Required(t.inputs[i].1) + if t.inputs[i].0 == p then k else 0
  {
    var j :| 0 <= j < |t.inputs| && t.inputs[j].0 == t.inputs[i].0 &&
      Needs(t, t.inputs[i].0, p, k) == Required(t.inputs[j].1) + if t.inputs[i].0 == p then k else 0;
    assert i == j;
  }

  lemma {:induction false} TakenAt(inputs: seq<(nat, Card)>, m: Marking, i: nat)
    requires i < |inputs| && inputs[i].0 < |m|
    requires forall i, j :: 0 <= i < j < |inputs| ==> inputs[i].0 != inputs[j].0
    ensures Taken(inputs, m, inputs[i].0) == Take(inputs[i].1, m[inputs[i].0])
  {
    var n := |inputs| - 1;
    if i < n {
      TakenAt(inputs[..n], m, i);
    } else {
      TakesNothing(inputs[..n], m, inputs[n].0);
    }
  }

  lemma LeastLeaves(t: Transition, n: nat, p: nat, k: nat, i: nat)
    requires TransitionInside(t, n) && Sound(t) && Drained(t, p, k) && i < |t.inputs|
    ensures LeftAll(t, LeastMarking(t, n, p, k))[t.inputs[i].0] == 0
  {
    TakenAt(t.inputs, LeastMarking(t, n, p, k), i);
    NeedsOfInput(t, i, p, k);
  }

  /** From the least marking a firing leaves nothing on its inputs, so resets take no weight. */
  lemma LeastLosesNothing(y: Weights, t: Transition, p: nat, k: nat, q: nat)
    requires TransitionInside(t, |y|) && Sound(t) && Drained(t, p, k) && ResetsWeighNothing(y, t) && q < |y|
    ensures y[q] * KeptAll(t, LeastMarking(t, |y|, p, k))[q] == y[q] * LeftAll(t, LeastMarking(t, |y|, p, k))[q]
  {
    var m := LeastMarking(t, |y|, p, k);
    if q in t.resets {
      if i :| 0 <= i < |t.inputs| && t.inputs[i].0 == q {
        LeastLeaves(t, |y|, p, k, i);
      } else {
        TakesNothing(t.inputs, m, q);
        assert y[q] == 0 || m[q] == 0;
      }
    }
  }

  lemma {:induction false} NoSurplus(y: Weights, b: Branch, inputs: seq<(nat, Card)>, m: Marking)
    requires |y| == |m|
    requires forall i :: 0 <= i < |inputs| ==> inputs[i].0 < |m| && m[inputs[i].0] == Required(inputs[i].1)
    ensures SurplusWeight(y, b, inputs, m) == 0
  {
    if inputs != [] {
      var (p, c) := inputs[|inputs| - 1];
      NoSurplus(y, b, inputs[..|inputs| - 1], m);
      assert inputs[|inputs| - 1].0 == p && Take(c, m[p]) - Required(c) == 0;
      NoGain(Take(c, m[p]) - Required(c), Forwarded(y, b, p) - y[p]);
    }
  }

  /** With `k` tokens to spare on one draining input, the surplus is what becomes of these. */
  lemma {:induction false} SurplusAt(y: Weights, b: Branch, inputs: seq<(nat, Card)>, m: Marking, i: nat, k: nat, gain: int)
    requires |y| == |m| && i < |inputs| && Drains(inputs[i].1)
    requires forall j :: 0 <= j < |inputs| ==>
      inputs[j].0 < |m| && m[inputs[j].0] == Required(inputs[j].1) + if j == i then k else 0
    requires gain == Forwarded(y, b, inputs[i].0) - y[inputs[i].0]
    ensures SurplusWeight(y, b, inputs, m) == k * gain
  {
    var n := |inputs| - 1;
    var (p, c) := inputs[n];
    assert inputs[n].0 == p;
    if i == n {
      NoSurplus(y, b, inputs[..n], m);
      assert Take(c, m[p]) - Required(c) == k;
    } else {
      SurplusAt(y, b, inputs[..n], m, i, k, gain);
      assert Take(c, m[p]) - Required(c) == 0;
      NoGain(Take(c, m[p]) - Required(c), Forwarded(y, b, p) - y[p]);
    }
  }

  lemma LeastKeepsWeight(y: Weights, t: Transition, p: nat, k: nat)
    requires TransitionInside(t, |y|) && Sound(t) && Drained(t, p, k) && ResetsWeighNothing(y, t)
    ensures Dot(y, KeptAll(t, LeastMarking(t, |y|, p, k))) == Dot(y, LeftAll(t, LeastMarking(t, |y|, p, k)))
  {
    var m := LeastMarking(t, |y|, p, k);
    var kept, left := KeptAll(t, m), LeftAll(t, m);
    forall q | 0 <= q < |y|
      ensures y[q] * kept[q] == y[q] * left[q]
    {
      LeastLosesNothing(y, t, p, k, q);
    }
    DotMonotone(y, kept, left);
    DotMonotone(y, left, kept);
  }

  /** What a firing that resets no weight changes. */
  lemma ChangeWithoutResets(y: Weights, t: Transition, m: Marking, b: Branch)
    requires |y| == |m| && TransitionInside(t, |m|) && Sound(t)
    requires Dot(y, KeptAll(t, m)) == Dot(y, LeftAll(t, m))
    ensures Dot(y, Fire(t, m, b)) - Dot(y, m) == Balance(y, b, t.inputs) + SurplusWeight(y, b, t.inputs, m)
  {
    DotTaken(y, t.inputs, m);
    DotSum(y, LeftAll(t, m), TakenAll(t.inputs, m), m);
    DotGiven(y, b, t.inputs, m);
    DotSum(y, KeptAll(t, m), GivenAll(b, t.inputs, m), Fire(t, m, b));
    ChangeIsBalance(y, b, t.inputs, m);
  }

  /** What the firing from the least marking changes. */
  lemma LeastChange(y: Weights, t: Transition, b: Branch, p: nat, k: nat)
    requires TransitionInside(t, |y|) && Sound(t) && Drained(t, p, k) && ResetsWeighNothing(y, t)
    ensures var m := LeastMarking(t, |y|, p, k);
      Dot(y, Fire(t, m, b)) - Dot(y, m) == Balance(y, b, t.inputs) + SurplusWeight(y, b, t.inputs, m)
  {
    LeastKeepsWeight(y, t, p, k);
    ChangeWithoutResets(y, t, LeastMarking(t, |y|, p, k), b);
  }

  lemma BalanceIsNeeded(y: Weights, t: Transition, b: Branch)
    requires TransitionInside(t, |y|) && Sound(t) && CanBeEnabled(t) && ResetsWeighNothing(y, t)
    requires NoFiringRaises(y, t) && b in Outcomes(t)
    ensures Balance(y, b, t.inputs) <= 0
  {
    var m := LeastMarking(t, |y|, 0, 0);
    LeastEnables(t, |y|, 0, 0);
    LeastChange(y, t, b, 0, 0);
    NoSurplus(y, b, t.inputs, m);
    assert Dot(y, Fire(t, m, b)) <= Dot(y, m);
  }

  /** What `k` tokens to spare on a drained input do. */
  lemma DrainChange(y: Weights, t: Transition, b: Branch, i: nat, k: nat) returns (gain: int, m: Marking)
    requires TransitionInside(t, |y|) && Sound(t) && CanBeEnabled(t) && ResetsWeighNothing(y, t)
    requires i < |t.inputs| && Drains(t.inputs[i].1)
    ensures |m| == |y| && NonNegative(m) && Enabled(t, m)
    ensures gain == Forwarded(y, b, t.inputs[i].0) - y[t.inputs[i].0]
    ensures Dot(y, Fire(t, m, b)) - Dot(y, m) == Balance(y, b, t.inputs) + k * gain
  {
    var p := t.inputs[i].0;
    m := LeastMarking(t, |y|, p, k);
    gain := Forwarded(y, b, p) - y[p];
    LeastEnables(t, |y|, p, k);
    LeastChange(y, t, b, p, k);
    SurplusAt(y, b, t.inputs, m, i, k, gain);
  }

  lemma SafeDrainIsNeeded(y: Weights, t: Transition, b: Branch, i: nat)
    requires TransitionInside(t, |y|) && Sound(t) && CanBeEnabled(t) && ResetsWeighNothing(y, t)
    requires NoFiringRaises(y, t) && b in Outcomes(t)
    requires i < |t.inputs| && Drains(t.inputs[i].1)
    ensures Forwarded(y, b, t.inputs[i].0) <= y[t.inputs[i].0]
  {
    var balance := Balance(y, b, t.inputs);
    var k := if balance < 0 then 1 - balance else 1;
    var gain, m := DrainChange(y, t, b, i, k);
    assert Dot(y, Fire(t, m, b)) <= Dot(y, m);
    Outgrows(balance, gain, k);
  }

  lemma Outgrows(balance: int, gain: int, k: nat)
    requires balance + k >= 1 && balance + k * gain <= 0
    ensures gain <= 0
  {
    if gain > 0 {
      Times(k, 1, gain);
    }
  }

  /**
   The condition on weights is exact: no firing from any marking raises them if and only if no
   outcome does by its balance and no drained input is forwarded to more weight than it had.
   */
  lemma NeverRaisesIff(y: Weights, t: Transition)
    requires TransitionInside(t, |y|) && Sound(t) && CanBeEnabled(t) && ResetsWeighNothing(y, t)
    ensures NeverRaises(y, t) <==> NoFiringRaises(y, t)
  {
    if NeverRaises(y, t) {
      forall m, b | |m| == |y| && NonNegative(m) && Enabled(t, m) && b in Outcomes(t)
        ensures Dot(y, Fire(t, m, b)) <= Dot(y, m)
      {
        FiringWeight(y, t, m, b);
      }
    }
    if NoFiringRaises(y, t) {
      forall b | b in Outcomes(t)
        ensures Balance(y, b, t.inputs) <= 0 && DrainsSafely(y, b, t.inputs)
      {
        BalanceIsNeeded(y, t, b);
        forall i | 0 <= i < |t.inputs| && Drains(t.inputs[i].1)
          ensures Forwarded(y, b, t.inputs[i].0) <= y[t.inputs[i].0]
        {
          SafeDrainIsNeeded(y, t, b, i);
        }
      }
    }
  }

  /** Every firing of `t` keeps the weight. */
  ghost predicate EveryFiringKeeps(y: Weights, t: Transition)
    requires TransitionInside(t, |y|)
  {
    forall m, b {:trigger Fire(t, m, b)} ::
      |m| == |y| && NonNegative(m) && Enabled(t, m) && b in Outcomes(t) ==> Dot(y, Fire(t, m, b)) == Dot(y, m)
  }

  /** A token may rest on a reset place of `t` until it fires: nothing there inhibits or drains. */
  ghost predicate ResetsBite(t: Transition) {
    forall q :: q in t.resets ==> q !in t.inhibitors && forall i :: 0 <= i < |t.inputs| && t.inputs[i].0 == q ==> !Drains(t.inputs[i].1)
  }

  lemma {:induction false} PassedAlike(inputs: seq<(nat, Card)>, m: Marking, m': Marking, q: nat, x: nat)
    requires |m| == |m'| && (forall p :: 0 <= p < |m| && p != q ==> m[p] == m'[p])
    requires forall i :: 0 <= i < |inputs| && inputs[i].0 == q ==> !Drains(inputs[i].1)
    ensures Passed(inputs, m, x) == Passed(inputs, m', x)
  {
    if inputs != [] {
      PassedAlike(inputs[..|inputs| - 1], m, m', q, x);
    }
  }

  lemma {:induction false} GivenAlike(b: Branch, inputs: seq<(nat, Card)>, m: Marking, m': Marking, q: nat, x: nat)
    requires |m| == |m'| && (forall p :: 0 <= p < |m| && p != q ==> m[p] == m'[p])
    requires forall i :: 0 <= i < |inputs| && inputs[i].0 == q ==> !Drains(inputs[i].1)
    ensures Given(b, inputs, m, x) == Given(b, inputs, m', x)
  {
    if b != [] {
      GivenAlike(b[..|b| - 1], inputs, m, m', q, x);
      forall p
        ensures Passed(inputs, m, p) == Passed(inputs, m', p)
      {
        PassedAlike(inputs, m, m', q, p);
      }
    }
  }

  lemma {:induction false} TakenAlike(inputs: seq<(nat, Card)>, m: Marking, m': Marking, x: nat)
    requires |m| == |m'| && x < |m| && m[x] == m'[x]
    ensures Taken(inputs, m, x) == Taken(inputs, m', x)
  {
    if inputs != [] {
      TakenAlike(inputs[..|inputs| - 1], m, m', x);
    }
  }

  /** What lies on a reset place makes no difference to the marking after the firing. */
  lemma ResetForgets(t: Transition, m: Marking, m': Marking, b: Branch, q: nat)
    requires |m| == |m'| && q in t.resets && (forall p :: 0 <= p < |m| && p != q ==> m[p] == m'[p])
    requires forall i :: 0 <= i < |t.inputs| && t.inputs[i].0 == q ==> !Drains(t.inputs[i].1)
    ensures Fire(t, m, b) == Fire(t, m', b)
  {
    forall x: nat | x < |m|
      ensures Fire(t, m, b)[x] == Fire(t, m', b)[x]
    {
      GivenAlike(b, t.inputs, m, m', q, x);
      if x != q {
        TakenAlike(t.inputs, m, m', x);
      }
    }
    assert Fire(t, m, b) == Fire(t, m', b);
  }

  lemma ResetWeighsNothing(y: Weights, t: Transition, b: Branch, q: nat)
    requires TransitionInside(t, |y|) && Sound(t) && CanBeEnabled(t) && ResetsBite(t) && EveryFiringKeeps(y, t)
    requires b in Outcomes(t) && q in t.resets && q < |y|
    ensures y[q] == 0
  {
    var bare, more := LeastMarking(t, |y|, q, 0), LeastMarking(t, |y|, q, 1);
    LeastEnables(t, |y|, q, 0);
    LeastEnables(t, |y|, q, 1);
    ResetForgets(t, bare, more, b, q);
    DotUpdate(y, bare, more, q, 1);
    assert Dot(y, Fire(t, bare, b)) == Dot(y, bare) && Dot(y, Fire(t, more, b)) == Dot(y, more);
  }

  lemma BalanceIsExact(y: Weights, t: Transition, b: Branch)
    requires TransitionInside(t, |y|) && Sound(t) && CanBeEnabled(t) && ResetsWeighNothing(y, t)
    requires EveryFiringKeeps(y, t) && b in Outcomes(t)
    ensures Balance(y, b, t.inputs) == 0 && DrainsEvenly(y, b, t.inputs)
  {
    var m := LeastMarking(t, |y|, 0, 0);
    LeastEnables(t, |y|, 0, 0);
    LeastChange(y, t, b, 0, 0);
    NoSurplus(y, b, t.inputs, m);
    assert Dot(y, Fire(t, m, b)) == Dot(y, m);
    forall i | 0 <= i < |t.inputs| && Drains(t.inputs[i].1)
      ensures Forwarded(y, b, t.inputs[i].0) == y[t.inputs[i].0]
    {
      var gain, more := DrainChange(y, t, b, i, 1);
      assert Dot(y, Fire(t, more, b)) == Dot(y, more);
    }
  }

  /**
   So is the condition on invariant weights: every firing keeps them if and only if every outcome
   balances, drained inputs are forwarded evenly, and reset places weigh nothing.
   */
  lemma AlwaysBalancesIff(y: Weights, t: Transition)
    requires TransitionInside(t, |y|) && Sound(t) && CanBeEnabled(t) && ResetsBite(t) && Outcomes(t) != []
    ensures AlwaysBalances(y, t) <==> EveryFiringKeeps(y, t)
  {
    if AlwaysBalances(y, t) {
      forall m, b | |m| == |y| && NonNegative(m) && Enabled(t, m) && b in Outcomes(t)
        ensures Dot(y, Fire(t, m, b)) == Dot(y, m)
      {
        FiringWeight(y, t, m, b);
      }
    }
    if EveryFiringKeeps(y, t) {
      forall q | q in t.resets && q < |y|
        ensures y[q] == 0
      {
        ResetWeighsNothing(y, t, Outcomes(t)[0], q);
      }
      forall i | 0 <= i < |t.resets| && t.resets[i] < |y|
        ensures y[t.resets[i]] == 0
      {
        assert t.resets[i] in t.resets;
      }
      forall b | b in Outcomes(t)
        ensures Balance(y, b, t.inputs) == 0 && DrainsEvenly(y, b, t.inputs)
      {
        BalanceIsExact(y, t, b);
      }
    }
  }

  // ----- whole runs ------------------------------------------------------------------

  ghost predicate SoundNet(net: Net) {
    WellFormed(net) && NonNegative(net.initial) && forall i :: 0 <= i < |net.transitions| ==> Sound(net.transitions[i])
  }

  /** No reachable marking owes a token. */
  lemma CountsStayNonNegative(net: Net, m: Marking)
    requires SoundNet(net) && Reachable(net, m)
    ensures |m| == net.places && NonNegative(m)
  {
    var inv := (x: Marking) => |x| == net.places && NonNegative(x);
    forall a, b | inv(a) && Step(net, a, b)
      ensures inv(b)
    {
      var i: nat, j: nat :| Leads(net, a, i, j, b);
      FiringKeepsCounts(net.transitions[i], a, Outcomes(net.transitions[i])[j]);
    }
    Invariant(net, inv, m);
  }

  /** Weights no transition raises bound every reachable marking by the initial one. */
  lemma LinearBound(net: Net, y: Weights, m: Marking)
    requires SoundNet(net) && |y| == net.places && Reachable(net, m)
    requires forall i :: 0 <= i < |net.transitions| ==> NeverRaises(y, net.transitions[i])
    ensures |m| == net.places && Dot(y, m) <= Dot(y, net.initial)
  {
    var inv := (x: Marking) => |x| == net.places && NonNegative(x) && Dot(y, x) <= Dot(y, net.initial);
    forall a, b | inv(a) && Step(net, a, b)
      ensures inv(b)
    {
      var i: nat, j: nat :| Leads(net, a, i, j, b);
      var t := net.transitions[i];
      FiringKeepsCounts(t, a, Outcomes(t)[j]);
      FiringWeight(y, t, a, Outcomes(t)[j]);
    }
    Invariant(net, inv, m);
  }

  /** Weights every transition balances keep their sum over every run. */
  lemma LinearInvariant(net: Net, y: Weights, m: Marking)
    requires SoundNet(net) && |y| == net.places && Reachable(net, m)
    requires forall i :: 0 <= i < |net.transitions| ==> AlwaysBalances(y, net.transitions[i])
    ensures |m| == net.places && Dot(y, m) == Dot(y, net.initial)
  {
    var inv := (x: Marking) => |x| == net.places && NonNegative(x) && Dot(y, x) == Dot(y, net.initial);
    forall a, b | inv(a) && Step(net, a, b)
      ensures inv(b)
    {
      var i: nat, j: nat :| Leads(net, a, i, j, b);
      var t := net.transitions[i];
      FiringKeepsCounts(t, a, Outcomes(t)[j]);
      FiringWeight(y, t, a, Outcomes(t)[j]);
    }
    Invariant(net, inv, m);
  }

  /** Drains place 0, takes one token of place 1 and forwards what it drained to place 2. */
  ghost function Forwarder(): Transition {
    Transition("t", [(0, All), (1, One)], [], [], [], Some(Timeout(Forward(0, 2))), false)
  }

  lemma ForwarderBalances()
    ensures Sound(Forwarder()) && Outcomes(Forwarder()) == [[Deposit(2)], [Pass(0, 2)]]
    ensures forall b :: b in Outcomes(Forwarder()) ==> Balance([1, 1, 2], b, Forwarder().inputs) <= 0
  {
    var inputs, y: Weights := Forwarder().inputs, [1, 1, 2];
    var late, early := [Pass(0, 2)], [Deposit(2)];
    var first := [(0, All)];
    assert inputs[..1] == first && first[..0] == [] && late[..0] == [] && early[..0] == [];
    assert Balance(y, late, first) == 1 && Balance(y, early, first) == 1;
  }

  /** Drained inputs need their own condition: forwarding a surplus outweighs the balance. */
  lemma SurplusMatters()
    ensures var t, y, m := Forwarder(), [1, 1, 2], [5, 1, 0];
      && (forall b :: b in Outcomes(t) ==> Balance(y, b, t.inputs) <= 0)
      && Sound(t) && [Pass(0, 2)] in Outcomes(t) && TransitionInside(t, |m|) && Enabled(t, m)
      && Dot(y, Fire(t, m, [Pass(0, 2)])) > Dot(y, m)
  {
    ForwarderBalances();
    ForwarderEnabled();
    ForwarderFires([5, 1, 0]);
    WeightsOfExample();
  }

  lemma ForwarderEnabled()
    ensures TransitionInside(Forwarder(), 3) && Enabled(Forwarder(), [5, 1, 0])
    ensures [Pass(0, 2)] in Outcomes(Forwarder())
  {
    ForwarderBalances();
  }

  lemma WeightsOfExample()
    ensures Dot([1, 1, 2], [5, 1, 0]) == 6 && Dot([1, 1, 2], [0, 0, 5]) == 10
  {
    DotOfThree([1, 1, 2], [5, 1, 0]);
    DotOfThree([1, 1, 2], [0, 0, 5]);
  }

  lemma ForwarderFires(m: Marking)
    requires m == [5, 1, 0]
    ensures Fire(Forwarder(), m, [Pass(0, 2)]) == [0, 0, 5]
  {
    var t, late := Forwarder(), [Pass(0, 2)];
    var first := [(0, All)];
    assert t.inputs[..1] == first && first[..0] == [] && late[..0] == [];
    assert first[|first| - 1] == (0, All) && t.inputs[|t.inputs| - 1] == (1, One);
    forall q: nat | q < 3
      ensures Taken(first, m, q) == if q == 0 then 5 else 0
    {
      assert Taken(first[..0], m, q) == 0;
    }
    forall q: nat | q < 3
      ensures Taken(t.inputs, m, q) == m[q]
    {
    }
    assert Passed(first, m, 0) == 5 && Passed(t.inputs, m, 0) == 5;
    forall q: nat | q < 3
      ensures Given(late, t.inputs, m, q) == if q == 2 then 5 else 0
    {
      assert Given(late[..0], t.inputs, m, q) == 0;
    }
  }

  lemma DotOfThree(y: Weights, m: seq<int>)
    requires |y| == |m| == 3
    ensures Dot(y, m) == y[0] * m[0] + y[1] * m[1] + y[2] * m[2]
  {
    assert m[..2][..1] == m[..1] && y[..2][..1] == y[..1];
    assert m[..1][..0] == [] && y[..1][..0] == [];
    assert Dot(y[..1], m[..1]) == y[0] * m[0];
    assert Dot(y[..2], m[..2]) == y[0] * m[0] + y[1] * m[1];
  }
}
