/**
 The firing rule as a relation: how many tokens an input may take, what may be written, and what
 the marking is afterwards, place by place. It says what a step of the net is without the
 functions that compute it.
 */
module FiringLaws {
  import opened OutputSpecs
  import opened OutputLaws
  import opened PetriNets
  import opened Wrappers

  // ----- cardinalities ---------------------------------------------------------------

  /** An input of this cardinality may take `k` tokens. */
  predicate Allowed(c: Card, k: int) {
    match c
    case One => k == 1
    case Exactly(n) => k == n
    case All => k >= 1
    case AtLeast(n) => k >= n
  }

  /** The most it may take where `available` tokens are. */
  ghost predicate Most(c: Card, available: int, k: int) {
    Allowed(c, k) && k <= available && forall j :: Allowed(c, j) && j <= available ==> j <= k
  }

  /** What is required is what makes some amount possible; what is taken is the most possible. */
  lemma TakesTheMost(c: Card, available: int)
    ensures available >= Required(c) <==> exists k :: Allowed(c, k) && k <= available
    ensures forall k :: Most(c, available, k) <==> available >= Required(c) && k == Take(c, available)
  {
    if available >= Required(c) {
      assert Allowed(c, Required(c));
      assert Allowed(c, Take(c, available));
    }
  }

  ghost predicate CanTake(c: Card, available: int) {
    exists k :: Allowed(c, k) && k <= available
  }

  /** Every input may take some amount, every read place is marked, every inhibiting place empty. */
  ghost predicate MayStart(t: Transition, m: Marking)
    requires TransitionInside(t, |m|)
  {
    && (forall i :: 0 <= i < |t.inputs| ==> CanTake(t.inputs[i].1, m[t.inputs[i].0]))
    && (forall p :: p in t.readArcs ==> m[p] > 0)
    && (forall p :: p in t.inhibitors ==> m[p] == 0)
  }

  lemma EnabledIffMayStart(t: Transition, m: Marking)
    requires TransitionInside(t, |m|)
    ensures Enabled(t, m) <==> MayStart(t, m)
  {
    forall i | 0 <= i < |t.inputs|
      ensures m[t.inputs[i].0] >= Required(t.inputs[i].1) <==>
              CanTake(t.inputs[i].1, m[t.inputs[i].0])
    {
      TakesTheMost(t.inputs[i].1, m[t.inputs[i].0]);
    }
    if MayStart(t, m) {
      assert forall i :: 0 <= i < |t.readArcs| ==> t.readArcs[i] in t.readArcs;
      assert forall i :: 0 <= i < |t.inhibitors| ==> t.inhibitors[i] in t.inhibitors;
    }
    if Enabled(t, m) {
      forall p | p in t.readArcs
        ensures m[p] > 0
      {
        var i :| 0 <= i < |t.readArcs| && t.readArcs[i] == p;
      }
      forall p | p in t.inhibitors
        ensures m[p] == 0
      {
        var i :| 0 <= i < |t.inhibitors| && t.inhibitors[i] == p;
      }
    }
  }

  // ----- outcomes --------------------------------------------------------------------

  /** The first timeout of `o` expires with `b`. */
  ghost predicate Expires(o: Output, k: nat, b: Branch) {
    && FirstTimeoutAt(Reading(o), k)
    && var under := Reading(Reading(o)[k].child);
       !Undecided(under) && b == LeavesAmong(under)
  }

  /** An action that completes writes one branch, one whose timeout expires all leaves under it. */
  ghost predicate MayWrite(t: Transition, b: Branch) {
    match t.out
    case None => b == []
    case Some(o) => Writes(o, b) || exists k: nat :: Expires(o, k, b)
  }

  lemma ExpiresIff(o: Output, b: Branch)
    ensures TimeoutLeaves(o) == TimeoutResult.Leaves(b) <==> exists k: nat :: Expires(o, k, b)
  {
    TimeoutLeavesExactly(o);
    if k: nat :| Expires(o, k, b) {
      TimeoutLeavesOfFirst(o, k);
      TimeoutChildExactly(Reading(o)[k].child);
    }
    if TimeoutLeaves(o) == TimeoutResult.Leaves(b) {
      var k: nat :| FirstTimeoutAt(Reading(o), k);
      TimeoutLeavesOfFirst(o, k);
      TimeoutChildExactly(Reading(o)[k].child);
      assert Expires(o, k, b);
    }
  }

  /** The outcomes of a transition are exactly what may be written. */
  lemma OutcomesIffMayWrite(t: Transition, b: Branch)
    ensures b in Outcomes(t) <==> MayWrite(t, b)
  {
    if t.out.Some? {
      AlternativesAreWrites(t.out.value, b);
      ExpiresIff(t.out.value, b);
    }
  }

  // ----- the marking afterwards ------------------------------------------------------

  ghost predicate DistinctInputs(inputs: seq<(nat, Card)>) {
    forall i, j :: 0 <= i < j < |inputs| ==> inputs[i].0 != inputs[j].0
  }

  /** Each input takes the most it may. */
  ghost predicate TakesMost(inputs: seq<(nat, Card)>, m: Marking, taken: seq<int>) {
    |taken| == |inputs| && forall i :: 0 <= i < |inputs| ==> inputs[i].0 < |m| && Most(inputs[i].1, m[inputs[i].0], taken[i])
  }

  /** The tokens taken from `q`. */
  function From(inputs: seq<(nat, Card)>, taken: seq<int>, q: nat): int
    requires |taken| == |inputs|
  {
    if inputs == [] then 0
    else
      var n := |inputs| - 1;
      From(inputs[..n], taken[..n], q) + if inputs[n].0 == q then taken[n] else 0
  }

  /** The tokens `b` passes on to `q`: what was taken from each input, for every forward to `q`. */
  function PassedOn(inputs: seq<(nat, Card)>, taken: seq<int>, b: Branch, q: nat): int
    requires |taken| == |inputs|
  {
    if inputs == [] then 0
    else
      var n := |inputs| - 1;
      PassedOn(inputs[..n], taken[..n], b, q) + multiset(b)[Pass(inputs[n].0, q)] * taken[n]
  }

  /** What `q` holds after the firing: what is left unless reset, one for each deposit, and what is passed on. */
  ghost predicate HoldsAfter(t: Transition, m: Marking, taken: seq<int>, b: Branch, q: nat, after: int)
    requires |taken| == |t.inputs| && q < |m|
  {
    after == (if q in t.resets then 0 else m[q] - From(t.inputs, taken, q))
             + multiset(b)[Deposit(q)] + PassedOn(t.inputs, taken, b, q)
  }

  ghost predicate Becomes(t: Transition, m: Marking, b: Branch, m': Marking) {
    |m'| == |m| && exists taken ::
      TakesMost(t.inputs, m, taken) && forall q: nat :: q < |m| ==> HoldsAfter(t, m, taken, b, q, m'[q])
  }

  function Amounts(inputs: seq<(nat, Card)>, m: Marking): (r: seq<int>)
    requires forall i :: 0 <= i < |inputs| ==> inputs[i].0 < |m|
    ensures |r| == |inputs| && forall i :: 0 <= i < |inputs| ==> r[i] == Take(inputs[i].1, m[inputs[i].0])
  {
    seq(|inputs|, i requires 0 <= i < |inputs| => Take(inputs[i].1, m[inputs[i].0]))
  }

  lemma {:induction false} TakenIsFrom(inputs: seq<(nat, Card)>, m: Marking, taken: seq<int>, q: nat)
    requires |taken| == |inputs| && q < |m|
    requires forall i :: 0 <= i < |inputs| ==> inputs[i].0 < |m| && taken[i] == Take(inputs[i].1, m[inputs[i].0])
    ensures Taken(inputs, m, q) == From(inputs, taken, q)
  {
    if inputs != [] {
      var n := |inputs| - 1;
      TakenIsFrom(inputs[..n], m, taken[..n], q);
    }
  }

  lemma {:induction false} FromNothing(inputs: seq<(nat, Card)>, taken: seq<int>, q: nat)
    requires |taken| == |inputs| && forall i :: 0 <= i < |inputs| ==> inputs[i].0 != q
    ensures From(inputs, taken, q) == 0
  {
    if inputs != [] {
      FromNothing(inputs[..|inputs| - 1], taken[..|inputs| - 1], q);
    }
  }

  lemma {:induction false} PassedIsFrom(inputs: seq<(nat, Card)>, m: Marking, taken: seq<int>, q: nat)
    requires |taken| == |inputs| && DistinctInputs(inputs)
    requires forall i :: 0 <= i < |inputs| ==> inputs[i].0 < |m| && taken[i] == Take(inputs[i].1, m[inputs[i].0])
    ensures Passed(inputs, m, q) == From(inputs, taken, q)
  {
    if inputs != [] {
      var n := |inputs| - 1;
      if inputs[n].0 == q {
        FromNothing(inputs[..n], taken[..n], q);
      } else {
        PassedIsFrom(inputs[..n], m, taken[..n], q);
      }
    }
  }

  lemma {:induction false} PassedOnNothing(inputs: seq<(nat, Card)>, taken: seq<int>, q: nat)
    requires |taken| == |inputs|
    ensures PassedOn(inputs, taken, [], q) == 0
  {
    if inputs != [] {
      PassedOnNothing(inputs[..|inputs| - 1], taken[..|inputs| - 1], q);
    }
  }

  /** One more leaf passes on what was taken from its place, if it forwards to `q`. */
  lemma {:induction false} PassedOnMore(inputs: seq<(nat, Card)>, taken: seq<int>, b: Branch, l: Leaf, q: nat)
    requires |taken| == |inputs|
    ensures PassedOn(inputs, taken, b + [l], q) ==
            PassedOn(inputs, taken, b, q) + if l.Pass? && l.to == q then From(inputs, taken, l.from) else 0
  {
    if inputs != [] {
      var n := |inputs| - 1;
      PassedOnMore(inputs[..n], taken[..n], b, l, q);
      var p := Pass(inputs[n].0, q);
      assert multiset(b + [l])[p] == multiset(b)[p] + if l == p then 1 else 0;
      OneMore(multiset(b)[p], taken[n]);
    }
  }

  lemma OneMore(k: nat, x: int)
    ensures (k + 1) * x == k * x + x
  {
  }

  lemma {:induction false} GivenIsCounted(b: Branch, inputs: seq<(nat, Card)>, m: Marking, taken: seq<int>, q: nat)
    requires |taken| == |inputs| && DistinctInputs(inputs)
    requires forall i :: 0 <= i < |inputs| ==> inputs[i].0 < |m| && taken[i] == Take(inputs[i].1, m[inputs[i].0])
    ensures Given(b, inputs, m, q) == multiset(b)[Deposit(q)] + PassedOn(inputs, taken, b, q)
  {
    if b == [] {
      PassedOnNothing(inputs, taken, q);
    } else {
      var first, l := b[..|b| - 1], b[|b| - 1];
      assert b == first + [l];
      GivenIsCounted(first, inputs, m, taken, q);
      PassedOnMore(inputs, taken, first, l, q);
      assert multiset(b)[Deposit(q)] == multiset(first)[Deposit(q)] + if l == Deposit(q) then 1 else 0;
      if l.Pass? {
        PassedIsFrom(inputs, m, taken, l.from);
      }
    }
  }

  lemma FireHoldsAfter(t: Transition, m: Marking, b: Branch, q: nat)
    requires TransitionInside(t, |m|) && DistinctInputs(t.inputs) && q < |m|
    ensures HoldsAfter(t, m, Amounts(t.inputs, m), b, q, Fire(t, m, b)[q])
  {
    TakenIsFrom(t.inputs, m, Amounts(t.inputs, m), q);
    GivenIsCounted(b, t.inputs, m, Amounts(t.inputs, m), q);
  }

  lemma AmountsAreMost(t: Transition, m: Marking, taken: seq<int>)
    requires TransitionInside(t, |m|) && Enabled(t, m)
    ensures TakesMost(t.inputs, m, taken) <==> taken == Amounts(t.inputs, m)
  {
    forall i, k | 0 <= i < |t.inputs|
      ensures Most(t.inputs[i].1, m[t.inputs[i].0], k) <==> k == Take(t.inputs[i].1, m[t.inputs[i].0])
    {
      TakesTheMost(t.inputs[i].1, m[t.inputs[i].0]);
    }
  }

  /** The marking after a firing is the one place by place, and no other. */
  lemma FireIffBecomes(t: Transition, m: Marking, b: Branch, m': Marking)
    requires TransitionInside(t, |m|) && DistinctInputs(t.inputs) && Enabled(t, m)
    ensures m' == Fire(t, m, b) <==> Becomes(t, m, b, m')
  {
    var taken := Amounts(t.inputs, m);
    AmountsAreMost(t, m, taken);
    forall q: nat | q < |m|
      ensures HoldsAfter(t, m, taken, b, q, Fire(t, m, b)[q])
    {
      FireHoldsAfter(t, m, b, q);
    }
    if Becomes(t, m, b, m') {
      var other :| TakesMost(t.inputs, m, other) && forall q: nat :: q < |m| ==> HoldsAfter(t, m, other, b, q, m'[q]);
      AmountsAreMost(t, m, other);
      forall q: nat | q < |m|
        ensures m'[q] == Fire(t, m, b)[q]
      {
        assert HoldsAfter(t, m, taken, b, q, m'[q]);
      }
      assert m' == Fire(t, m, b);
    }
  }

  /** Transition `i` may start in `m`, write `b`, and leave `m'`. */
  ghost predicate MayStep(net: Net, m: Marking, i: nat, b: Branch, m': Marking)
    requires WellFormed(net) && |m| == net.places
  {
    && i < |net.transitions|
    && MayStart(net.transitions[i], m)
    && MayWrite(net.transitions[i], b)
    && Becomes(net.transitions[i], m, b, m')
  }

  ghost predicate AllDistinct(net: Net) {
    forall i :: 0 <= i < |net.transitions| ==> DistinctInputs(net.transitions[i].inputs)
  }

  /** The steps of the model are exactly the steps of the relation. */
  lemma StepIffMayStep(net: Net, m: Marking, m': Marking)
    requires WellFormed(net) && |m| == net.places && AllDistinct(net)
    ensures Step(net, m, m') <==> exists i: nat, b :: MayStep(net, m, i, b, m')
  {
    if i: nat, j: nat :| Leads(net, m, i, j, m') {
      var t, b := net.transitions[i], Outcomes(net.transitions[i])[j];
      EnabledIffMayStart(t, m);
      OutcomesIffMayWrite(t, b);
      FireIffBecomes(t, m, b, m');
      assert MayStep(net, m, i, b, m');
    }
    if i: nat, b :| MayStep(net, m, i, b, m') {
      var t := net.transitions[i];
      EnabledIffMayStart(t, m);
      OutcomesIffMayWrite(t, b);
      FireIffBecomes(t, m, b, m');
      var j :| 0 <= j < |Outcomes(t)| && Outcomes(t)[j] == b;
      assert Leads(net, m, i, j, m');
    }
  }
}
