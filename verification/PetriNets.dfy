/** The firing rule: cardinalities, read, inhibitor and reset arcs, output branches and timeouts. */
module PetriNets {
  import opened OutputSpecs
  import opened Wrappers

  datatype Card = One | Exactly(count: int) | All | AtLeast(minimum: int)

  /** `reapable`: the timing has a deadline, after which the transition is disabled for good. */
  datatype Transition = Transition(
    name: string, inputs: seq<(nat, Card)>, readArcs: seq<nat>, inhibitors: seq<nat>, resets: seq<nat>,
    out: Option<Output>, reapable: bool)

  type Marking = seq<int>

  datatype Net = Net(places: nat, transitions: seq<Transition>, initial: Marking)

  /** The least number of tokens the input needs. */
  function Required(c: Card): int {
    match c
    case One => 1
    case Exactly(n) => n
    case All => 1
    case AtLeast(n) => n
  }

  /** The number of tokens the input takes when `available` are there. */
  function Take(c: Card, available: int): int {
    if c.All? || c.AtLeast? then available else Required(c)
  }

  function Outcomes(t: Transition): seq<Branch> {
    match t.out
    case None => [[]]
    case Some(o) =>
      var late := TimeoutLeaves(o);
      Alternatives(o) + if late.Leaves? then [late.leaves] else []
  }

  // ----- well-formed nets ------------------------------------------------------------

  ghost predicate LeafInside(l: Leaf, n: nat) {
    match l
    case Deposit(p) => p < n
    case Pass(from, to) => to < n
  }

  ghost predicate BranchInside(b: Branch, n: nat) {
    forall i :: 0 <= i < |b| ==> LeafInside(b[i], n)
  }

  /** Every arc and every output leaf is on a place of the net, and no timeout is malformed. */
  ghost predicate TransitionInside(t: Transition, n: nat) {
    && (forall i :: 0 <= i < |t.inputs| ==> t.inputs[i].0 < n)
    && (forall i :: 0 <= i < |t.readArcs| ==> t.readArcs[i] < n)
    && (forall i :: 0 <= i < |t.inhibitors| ==> t.inhibitors[i] < n)
    && (forall i :: 0 <= i < |t.resets| ==> t.resets[i] < n)
    && (forall b :: b in Outcomes(t) ==> BranchInside(b, n))
    && (t.out.Some? ==> !TimeoutLeaves(t.out.value).Malformed?)
  }

  ghost predicate WellFormed(net: Net) {
    && |net.initial| == net.places
    && forall i :: 0 <= i < |net.transitions| ==> TransitionInside(net.transitions[i], net.places)
  }

  // ----- enabling and firing ---------------------------------------------------------

  predicate Enabled(t: Transition, m: Marking)
    requires TransitionInside(t, |m|)
  {
    && (forall i :: 0 <= i < |t.inputs| ==> m[t.inputs[i].0] >= Required(t.inputs[i].1))
    && (forall i :: 0 <= i < |t.readArcs| ==> m[t.readArcs[i]] >= 1)
    && (forall i :: 0 <= i < |t.inhibitors| ==> m[t.inhibitors[i]] == 0)
  }

  /** The tokens all inputs together take from place `q`. */
  ghost function Taken(inputs: seq<(nat, Card)>, m: Marking, q: nat): int {
    if inputs == [] then 0
    else
      var (p, c) := inputs[|inputs| - 1];
      Taken(inputs[..|inputs| - 1], m, q) + if p == q && q < |m| then Take(c, m[q]) else 0
  }

  lemma {:induction false} TakesNothing(inputs: seq<(nat, Card)>, m: Marking, p: nat)
    requires forall i :: 0 <= i < |inputs| ==> inputs[i].0 != p
    ensures Taken(inputs, m, p) == 0
  {
    if inputs != [] {
      TakesNothing(inputs[..|inputs| - 1], m, p);
    }
  }

  /** The tokens a forward from `q` passes on: those of the last input on `q`, or none. */
  ghost function Passed(inputs: seq<(nat, Card)>, m: Marking, q: nat): int {
    if inputs == [] then 0
    else
      var (p, c) := inputs[|inputs| - 1];
      if p == q && q < |m| then Take(c, m[q]) else Passed(inputs[..|inputs| - 1], m, q)
  }

  ghost function LeafGives(l: Leaf, inputs: seq<(nat, Card)>, m: Marking, q: nat): int {
    match l
    case Deposit(p) => if p == q then 1 else 0
    case Pass(from, to) => if to == q then Passed(inputs, m, from) else 0
  }

  /** The tokens the branch puts on place `q`. */
  ghost function Given(b: Branch, inputs: seq<(nat, Card)>, m: Marking, q: nat): int {
    if b == [] then 0
    else Given(b[..|b| - 1], inputs, m, q) + LeafGives(b[|b| - 1], inputs, m, q)
  }

  ghost function Kept(t: Transition, m: Marking, q: nat): int
    requires q < |m|
  {
    if q in t.resets then 0 else m[q] - Taken(t.inputs, m, q)
  }

  /** The marking after `t` fires with branch `b`: what is kept, and what the branch gives. */
  ghost function Fire(t: Transition, m: Marking, b: Branch): Marking {
    seq(|m|, q requires 0 <= q < |m| => Kept(t, m, q) + Given(b, t.inputs, m, q))
  }

  /** Transition `i`, enabled in `m`, leads to `m'` with its outcome `j`. */
  ghost predicate Leads(net: Net, m: Marking, i: nat, j: nat, m': Marking)
    requires WellFormed(net) && |m| == net.places
  {
    && i < |net.transitions|
    && Enabled(net.transitions[i], m)
    && j < |Outcomes(net.transitions[i])|
    && m' == Fire(net.transitions[i], m, Outcomes(net.transitions[i])[j])
  }

  ghost predicate Step(net: Net, m: Marking, m': Marking)
    requires WellFormed(net)
  {
    |m| == net.places && exists i: nat, j: nat :: Leads(net, m, i, j, m')
  }

  // ----- runs ------------------------------------------------------------------------

  ghost predicate StepAt(net: Net, run: seq<Marking>, i: nat)
    requires WellFormed(net) && i + 1 < |run|
  {
    Step(net, run[i], run[i + 1])
  }

  ghost predicate Run(net: Net, run: seq<Marking>)
    requires WellFormed(net)
  {
    run != [] && run[0] == net.initial && forall i: nat :: i + 1 < |run| ==> StepAt(net, run, i)
  }

  ghost predicate Reachable(net: Net, m: Marking)
    requires WellFormed(net)
  {
    exists run :: Run(net, run) && run[|run| - 1] == m
  }

  lemma InitialReachable(net: Net)
    requires WellFormed(net)
    ensures Reachable(net, net.initial)
  {
    assert Run(net, [net.initial]);
  }

  lemma StepReachable(net: Net, m: Marking, m': Marking)
    requires WellFormed(net) && Reachable(net, m) && Step(net, m, m')
    ensures Reachable(net, m')
  {
    var run :| Run(net, run) && run[|run| - 1] == m;
    var longer := run + [m'];
    forall i: nat | i + 1 < |longer|
      ensures StepAt(net, longer, i)
    {
      if i + 1 < |run| {
        assert StepAt(net, run, i);
      }
    }
    assert Run(net, longer);
  }

  /** What holds initially and is kept by every step holds of every reachable marking. */
  lemma Invariant(net: Net, inv: Marking -> bool, m: Marking)
    requires WellFormed(net) && inv(net.initial) && Reachable(net, m)
    requires forall a, b :: inv(a) && Step(net, a, b) ==> inv(b)
    ensures inv(m)
  {
    var run :| Run(net, run) && run[|run| - 1] == m;
    InvariantAlong(net, inv, run, |run| - 1);
  }

  lemma {:induction false} InvariantAlong(net: Net, inv: Marking -> bool, run: seq<Marking>, i: nat)
    requires WellFormed(net) && inv(net.initial) && Run(net, run) && i < |run|
    requires forall a, b :: inv(a) && Step(net, a, b) ==> inv(b)
    ensures inv(run[i])
  {
    if i > 0 {
      InvariantAlong(net, inv, run, i - 1);
      assert StepAt(net, run, i - 1);
    }
  }

  /** Every reachable marking covers the places of the net. */
  lemma ReachableSize(net: Net, m: Marking)
    requires WellFormed(net) && Reachable(net, m)
    ensures |m| == net.places
  {
    Invariant(net, x => |x| == net.places, m);
  }

  // ----- the successors of a marking -------------------------------------------------

  /** `base[p] -= k` and `consumed[p] = k` for every input, then the resets. */
  method Consume(t: Transition, m: Marking) returns (base: Marking, consumed: map<nat, int>)
    requires TransitionInside(t, |m|)
    ensures |base| == |m|
    ensures forall q :: 0 <= q < |m| ==> base[q] == Kept(t, m, q)
    ensures forall q: nat :: (if q in consumed then consumed[q] else 0) == Passed(t.inputs, m, q)
  {
    base, consumed := m, map[];
    for i := 0 to |t.inputs|
      invariant |base| == |m|
      invariant forall q :: 0 <= q < |m| ==> base[q] == m[q] - Taken(t.inputs[..i], m, q)
      invariant forall q: nat :: (if q in consumed then consumed[q] else 0) == Passed(t.inputs[..i], m, q)
    {
      var (p, c) := t.inputs[i];
      assert t.inputs[..i + 1][..i] == t.inputs[..i];
      var k := Take(c, m[p]);
      base := base[p := base[p] - k];
      consumed := consumed[p := k];
    }
    assert t.inputs[..|t.inputs|] == t.inputs;
    for i := 0 to |t.resets|
      invariant |base| == |m|
      invariant forall q :: 0 <= q < |m| ==>
        base[q] == if q in t.resets[..i] then 0 else m[q] - Taken(t.inputs, m, q)
    {
      base := base[t.resets[i] := 0];
    }
  }

  /** Adds what the branch gives to `base`. */
  method Produce(t: Transition, m: Marking, base: Marking, consumed: map<nat, int>, b: Branch) returns (next: Marking)
    requires |base| == |m| && BranchInside(b, |m|)
    requires forall q :: 0 <= q < |m| ==> base[q] == Kept(t, m, q)
    requires forall q: nat :: (if q in consumed then consumed[q] else 0) == Passed(t.inputs, m, q)
    ensures next == Fire(t, m, b)
  {
    next := base;
    for i := 0 to |b|
      invariant |next| == |m|
      invariant forall q :: 0 <= q < |m| ==> next[q] == Kept(t, m, q) + Given(b[..i], t.inputs, m, q)
    {
      assert b[..i + 1][..i] == b[..i];
      assert LeafInside(b[i], |m|);
      match b[i] {
        case Deposit(p) =>
          next := next[p := next[p] + 1];
        case Pass(from, to) =>
          next := next[to := next[to] + if from in consumed then consumed[from] else 0];
      }
    }
    assert b[..|b|] == b;
  }

  /** The marking after each of the branches, under the transition's name. */
  ghost function Firings(t: Transition, m: Marking, bs: seq<Branch>): (r: seq<(string, Marking)>)
    ensures |r| == |bs| && forall j :: 0 <= j < |bs| ==> r[j] == (t.name, Fire(t, m, bs[j]))
  {
    seq(|bs|, j requires 0 <= j < |bs| => (t.name, Fire(t, m, bs[j])))
  }

  ghost predicate AllInside(ts: seq<Transition>, n: nat) {
    forall i :: 0 <= i < |ts| ==> TransitionInside(ts[i], n)
  }

  /** Every outcome of every enabled transition, in order. */
  ghost function AllFirings(ts: seq<Transition>, m: Marking): seq<(string, Marking)>
    requires AllInside(ts, |m|)
  {
    if ts == [] then []
    else
      var last := ts[|ts| - 1];
      AllFirings(ts[..|ts| - 1], m) + if Enabled(last, m) then Firings(last, m, Outcomes(last)) else []
  }

  /** Outcome `j` of transition `i` in `m` is `s`. */
  ghost predicate FiresAs(ts: seq<Transition>, m: Marking, i: nat, j: nat, s: (string, Marking))
    requires AllInside(ts, |m|)
  {
    i < |ts| && Enabled(ts[i], m) && j < |Outcomes(ts[i])| && s == (ts[i].name, Fire(ts[i], m, Outcomes(ts[i])[j]))
  }

  ghost predicate SomeFiresAs(ts: seq<Transition>, m: Marking, s: (string, Marking))
    requires AllInside(ts, |m|)
  {
    exists i: nat, j: nat :: FiresAs(ts, m, i, j, s)
  }

  lemma InFirings(t: Transition, m: Marking, s: (string, Marking))
    ensures s in Firings(t, m, Outcomes(t)) <==> exists j: nat :: j < |Outcomes(t)| && s == (t.name, Fire(t, m, Outcomes(t)[j]))
  {
    if s in Firings(t, m, Outcomes(t)) {
      var j :| 0 <= j < |Outcomes(t)| && Firings(t, m, Outcomes(t))[j] == s;
    }
    if j: nat :| j < |Outcomes(t)| && s == (t.name, Fire(t, m, Outcomes(t)[j])) {
      assert Firings(t, m, Outcomes(t))[j] == s;
    }
  }

  lemma SomeFiresAsSplit(ts: seq<Transition>, m: Marking, s: (string, Marking))
    requires AllInside(ts, |m|) && ts != []
    ensures var first, last := ts[..|ts| - 1], ts[|ts| - 1];
      SomeFiresAs(ts, m, s) <==> SomeFiresAs(first, m, s) || (Enabled(last, m) && s in Firings(last, m, Outcomes(last)))
  {
    var first, last := ts[..|ts| - 1], ts[|ts| - 1];
    InFirings(last, m, s);
    if i: nat, j: nat :| FiresAs(ts, m, i, j, s) {
      assert i < |ts| - 1 ==> FiresAs(first, m, i, j, s);
    }
    if i: nat, j: nat :| FiresAs(first, m, i, j, s) {
      assert FiresAs(ts, m, i, j, s);
    }
    if Enabled(last, m) && s in Firings(last, m, Outcomes(last)) {
      var j: nat :| j < |Outcomes(last)| && s == (last.name, Fire(last, m, Outcomes(last)[j]));
      assert FiresAs(ts, m, |ts| - 1, j, s);
    }
  }

  lemma {:induction false} InAllFirings(ts: seq<Transition>, m: Marking, s: (string, Marking))
    requires AllInside(ts, |m|)
    ensures s in AllFirings(ts, m) <==> SomeFiresAs(ts, m, s)
  {
    if ts != [] {
      InAllFirings(ts[..|ts| - 1], m, s);
      SomeFiresAsSplit(ts, m, s);
    }
  }

  /** `successors`: the marking after each outcome of each enabled transition, with its name. */
  method Successors(net: Net, m: Marking) returns (next: seq<(string, Marking)>)
    requires WellFormed(net) && |m| == net.places
    ensures AllInside(net.transitions, |m|) && next == AllFirings(net.transitions, m)
  {
    next := [];
    for i := 0 to |net.transitions|
      invariant next == AllFirings(net.transitions[..i], m)
    {
      var t := net.transitions[i];
      assert net.transitions[..i + 1][..i] == net.transitions[..i];
      if !Enabled(t, m) {
        continue;
      }
      var found := Fired(t, m);
      next := next + found;
    }
    assert net.transitions[..|net.transitions|] == net.transitions;
  }

  /** The outcomes of one enabled transition. */
  method Fired(t: Transition, m: Marking) returns (found: seq<(string, Marking)>)
    requires TransitionInside(t, |m|) && Enabled(t, m)
    ensures found == Firings(t, m, Outcomes(t))
  {
    var base, consumed := Consume(t, m);
    var outcomes := Outcomes(t);
    found := [];
    for j := 0 to |outcomes|
      invariant |found| == j && forall k :: 0 <= k < j ==> found[k] == (t.name, Fire(t, m, outcomes[k]))
    {
      var m' := Produce(t, m, base, consumed, outcomes[j]);
      found := found + [(t.name, m')];
    }
  }
}
