/**
 The node gadget of the open-net benchmark for every size and shape, closed by the environment
 its contract describes: the contract holds, every run ends, and a budget at least as large as
 the activations possible makes no difference.
 */
module OpenNet {

  /**
   `join` is the number of distinct input indices, all required; at 1 a single index receives
   `arrivals` producer edges. `exclusive`: at most one of those edges can carry data.
   */
  datatype Shape = Shape(
    edges: nat, budget: nat, arrivals: nat, join: nat, exclusive: bool, mutex: bool, independent: bool)

  ghost predicate Valid(shape: Shape) {
    shape.edges >= 1 && shape.budget >= 1 && shape.arrivals >= 1 && shape.join >= 1
  }

  predicate IsJoin(shape: Shape) {
    shape.join > 1
  }

  /** One activation per arrival on the single-index shape; exactly one for a join. */
  function Activations(shape: Shape): nat {
    if IsJoin(shape) then 1 else shape.arrivals
  }

  /** How many activations can ever start: an arrival that carries no data starts none. */
  function Startable(shape: Shape): nat {
    if IsJoin(shape) || shape.exclusive then 1 else shape.arrivals
  }

  /**
   The gadget's places, and what the environment has still to deliver: `due` onto `X/in` or
   `X/in_empty`, `dueEmpty` onto `X/in_empty`, `dueAt[i]` onto input index `i`, and the optional
   halt. `ins` are the input places, one per index.
   */
  datatype State = State(
    due: nat, dueEmpty: nat, dueAt: seq<nat>, optionalHalt: nat,
    ins: seq<nat>, inEmpty: nat, idle: nat, budget: nat, halt: nat, running: nat, routed: nat,
    done: nat, skipped: nat, data: seq<nat>, empty: seq<nat>)

  function Repeat(n: nat, x: nat): (r: seq<nat>)
    ensures |r| == n && forall i :: 0 <= i < n ==> r[i] == x
  {
    seq(n, _ => x)
  }

  function Initial(shape: Shape): State {
    var due := if IsJoin(shape) then 0 else if shape.exclusive then 1 else shape.arrivals;
    var dueEmpty := if IsJoin(shape) || !shape.exclusive || shape.arrivals == 0 then 0 else shape.arrivals - 1;
    State(due, dueEmpty, Repeat(shape.join, if IsJoin(shape) then 1 else 0), 1,
          Repeat(shape.join, 0), 0, if shape.mutex then 1 else 0, shape.budget, 0, 0, 0,
          0, 0, Repeat(shape.edges, 0), Repeat(shape.edges, 0))
  }

  datatype Firing =
    | ArriveData | ArriveEmpty | ArriveOnlyEmpty | ArriveAt(i: nat) | ArriveHalt | DeclineHalt
    | Start | Succeed(routes: seq<bool>) | Halt | Done | Skip

  /** One binary choice for the whole node, or one per edge: true for data, false for empty. */
  ghost predicate Routable(shape: Shape, routes: seq<bool>) {
    |routes| == shape.edges && (shape.independent || forall i, j :: 0 <= i < |routes| && 0 <= j < |routes| ==> routes[i] == routes[j])
  }

  ghost predicate Enabled(shape: Shape, f: Firing, s: State) {
    match f
    case ArriveData => !IsJoin(shape) && s.due >= 1 && |s.ins| == 1
    case ArriveEmpty => !IsJoin(shape) && s.due >= 1
    case ArriveOnlyEmpty => s.dueEmpty >= 1
    case ArriveAt(i) => i < |s.dueAt| && i < |s.ins| && s.dueAt[i] >= 1
    case ArriveHalt => s.optionalHalt >= 1
    case DeclineHalt => s.optionalHalt >= 1
    case Start =>
      (forall i :: 0 <= i < |s.ins| ==> s.ins[i] >= 1) && s.budget >= 1 && (shape.mutex ==> s.idle >= 1) && s.halt == 0
    case Succeed(routes) => s.running >= 1 && Routable(shape, routes)
    case Halt => s.running >= 1
    case Done => s.routed >= 1
    case Skip => !IsJoin(shape) && s.inEmpty >= 1 && s.halt == 0
  }

  /** One token more wherever `to` says so. */
  function Add(xs: seq<nat>, to: seq<bool>, on: bool): (r: seq<nat>)
    ensures |r| == |xs|
    ensures forall i :: 0 <= i < |xs| ==> r[i] == xs[i] + if i < |to| && to[i] == on then 1 else 0
  {
    seq(|xs|, i requires 0 <= i < |xs| => xs[i] + if i < |to| && to[i] == on then 1 else 0)
  }

  function Minus(xs: seq<nat>): (r: seq<nat>)
    requires forall i :: 0 <= i < |xs| ==> xs[i] >= 1
    ensures |r| == |xs| && forall i :: 0 <= i < |xs| ==> r[i] == xs[i] - 1
  {
    seq(|xs|, i requires 0 <= i < |xs| => xs[i] - 1)
  }

  function Plus(xs: seq<nat>): (r: seq<nat>)
    ensures |r| == |xs| && forall i :: 0 <= i < |xs| ==> r[i] == xs[i] + 1
  {
    seq(|xs|, i requires 0 <= i < |xs| => xs[i] + 1)
  }

  ghost function Fire(shape: Shape, f: Firing, s: State): State
    requires Enabled(shape, f, s)
  {
    var free := if shape.mutex then s.idle + 1 else s.idle;
    match f
    case ArriveData => s.(due := s.due - 1, ins := Plus(s.ins))
    case ArriveEmpty => s.(due := s.due - 1, inEmpty := s.inEmpty + 1)
    case ArriveOnlyEmpty => s.(dueEmpty := s.dueEmpty - 1, inEmpty := s.inEmpty + 1)
    case ArriveAt(i) => s.(dueAt := s.dueAt[i := s.dueAt[i] - 1], ins := s.ins[i := s.ins[i] + 1])
    case ArriveHalt => s.(optionalHalt := s.optionalHalt - 1, halt := s.halt + 1)
    case DeclineHalt => s.(optionalHalt := s.optionalHalt - 1)
    case Start =>
      s.(ins := Minus(s.ins), budget := s.budget - 1, idle := if shape.mutex then s.idle - 1 else s.idle,
         running := s.running + 1)
    case Succeed(routes) =>
      s.(running := s.running - 1, routed := s.routed + 1, idle := free,
         data := Add(s.data, routes, true), empty := Add(s.empty, routes, false))
    case Halt => s.(running := s.running - 1, halt := s.halt + 1, budget := s.budget + 1, idle := free)
    case Done => s.(routed := s.routed - 1, budget := s.budget + 1, done := s.done + 1)
    case Skip => s.(inEmpty := s.inEmpty - 1, empty := Plus(s.empty), skipped := s.skipped + 1)
  }

  ghost predicate Runs(shape: Shape, s0: State, fs: seq<Firing>, s: State)
    decreases fs
  {
    if fs == [] then s == s0
    else Enabled(shape, fs[0], s0) && Runs(shape, Fire(shape, fs[0], s0), fs[1..], s)
  }

  ghost predicate Reachable(shape: Shape, s: State) {
    exists fs :: Runs(shape, Initial(shape), fs, s)
  }

  ghost predicate AtRest(shape: Shape, s: State) {
    forall f :: !Enabled(shape, f, s)
  }

  // ----- the gadget as arcs ----------------------------------------------------------

  datatype Spot =
    | Due | DueEmpty | DueAt(i: nat) | OptionalHalt | In(i: nat) | InEmpty | Idle | Budget | Halted | Running | Routed
    | Finished | Skipped | Data(i: nat) | Empty(i: nat)

  function Nth(xs: seq<nat>, i: nat): nat {
    if i < |xs| then xs[i] else 0
  }

  function On(p: Spot, s: State): nat {
    match p
    case Due => s.due
    case DueEmpty => s.dueEmpty
    case DueAt(i) => Nth(s.dueAt, i)
    case OptionalHalt => s.optionalHalt
    case In(i) => Nth(s.ins, i)
    case InEmpty => s.inEmpty
    case Idle => s.idle
    case Budget => s.budget
    case Halted => s.halt
    case Running => s.running
    case Routed => s.routed
    case Finished => s.done
    case Skipped => s.skipped
    case Data(i) => Nth(s.data, i)
    case Empty(i) => Nth(s.empty, i)
  }

  /** There is an input arc from `p`. */
  predicate Takes(shape: Shape, f: Firing, p: Spot) {
    match f
    case ArriveData => p == Due
    case ArriveEmpty => p == Due
    case ArriveOnlyEmpty => p == DueEmpty
    case ArriveAt(i) => p == DueAt(i)
    case ArriveHalt => p == OptionalHalt
    case DeclineHalt => p == OptionalHalt
    case Start => (p.In? && p.i < shape.join) || p == Budget || (shape.mutex && p == Idle)
    case Succeed(_) => p == Running
    case Halt => p == Running
    case Done => p == Routed
    case Skip => p == InEmpty
  }

  /** There is an output arc to `p` on the branch taken. */
  predicate Gives(shape: Shape, f: Firing, p: Spot) {
    match f
    case ArriveData => p == In(0)
    case ArriveEmpty => p == InEmpty
    case ArriveOnlyEmpty => p == InEmpty
    case ArriveAt(i) => p == In(i)
    case ArriveHalt => p == Halted
    case DeclineHalt => false
    case Start => p == Running
    case Succeed(routes) =>
      p == Routed || (shape.mutex && p == Idle) ||
      (p.Data? && p.i < |routes| && routes[p.i]) || (p.Empty? && p.i < |routes| && !routes[p.i])
    case Halt => p == Halted || p == Budget || (shape.mutex && p == Idle)
    case Done => p == Budget || p == Finished
    case Skip => p == Skipped || (p.Empty? && p.i < shape.edges)
  }

  /** The firing is one of this shape: a join has no skip path, and routes are as the edges allow. */
  ghost predicate InNet(shape: Shape, f: Firing) {
    match f
    case ArriveData => !IsJoin(shape)
    case ArriveEmpty => !IsJoin(shape)
    case ArriveAt(i) => i < shape.join
    case Succeed(routes) => |routes| == shape.edges && (shape.independent || AllSame(routes))
    case Skip => !IsJoin(shape)
    case _ => true
  }

  ghost predicate AllSame<X>(xs: seq<X>) {
    forall i, j :: 0 <= i < |xs| && 0 <= j < |xs| ==> xs[i] == xs[j]
  }

  predicate MovesAt(shape: Shape, f: Firing, s: State, s': State, p: Spot) {
    && (Takes(shape, f, p) ==> On(p, s) >= 1)
    && On(p, s') == On(p, s) - (if Takes(shape, f, p) then 1 else 0) + if Gives(shape, f, p) then 1 else 0
  }

  /** One token off each input and one onto each output, nothing while halted for a start or skip. */
  ghost predicate Moves(shape: Shape, f: Firing, s: State, s': State) {
    InNet(shape, f) && (f.Start? || f.Skip? ==> s.halt == 0) && forall p :: MovesAt(shape, f, s, s', p)
  }

  ghost predicate Sizes(shape: Shape, s: State) {
    |s.ins| == |s.dueAt| == shape.join && |s.data| == |s.empty| == shape.edges
  }

  predicate OfEnvironment(f: Firing) {
    f.ArriveData? || f.ArriveEmpty? || f.ArriveOnlyEmpty? || f.ArriveAt? || f.ArriveHalt? || f.DeclineHalt?
  }

  lemma ArrivalMovesAt(shape: Shape, f: Firing, s: State, p: Spot)
    requires Sizes(shape, s) && shape.join >= 1 && Enabled(shape, f, s) && OfEnvironment(f)
    ensures MovesAt(shape, f, s, Fire(shape, f, s), p)
  {
  }

  lemma StartMovesAt(shape: Shape, s: State, p: Spot)
    requires Sizes(shape, s) && shape.join >= 1 && Enabled(shape, Start, s)
    ensures MovesAt(shape, Start, s, Fire(shape, Start, s), p)
  {
  }

  lemma SucceedMovesAt(shape: Shape, routes: seq<bool>, s: State, p: Spot)
    requires Sizes(shape, s) && Enabled(shape, Succeed(routes), s)
    ensures MovesAt(shape, Succeed(routes), s, Fire(shape, Succeed(routes), s), p)
  {
  }

  lemma NodeMovesAt(shape: Shape, f: Firing, s: State, p: Spot)
    requires Sizes(shape, s) && Enabled(shape, f, s) && (f.Halt? || f.Done? || f.Skip?)
    ensures MovesAt(shape, f, s, Fire(shape, f, s), p)
  {
  }

  lemma FireMovesAt(shape: Shape, f: Firing, s: State, p: Spot)
    requires Sizes(shape, s) && shape.join >= 1 && Enabled(shape, f, s)
    ensures MovesAt(shape, f, s, Fire(shape, f, s), p)
  {
    if OfEnvironment(f) {
      ArrivalMovesAt(shape, f, s, p);
    } else if f.Start? {
      StartMovesAt(shape, s, p);
    } else if f.Succeed? {
      SucceedMovesAt(shape, f.routes, s, p);
    } else {
      NodeMovesAt(shape, f, s, p);
    }
  }

  lemma MovesEnabled(shape: Shape, f: Firing, s: State, s': State)
    requires Sizes(shape, s) && shape.join >= 1 && Moves(shape, f, s, s')
    ensures Enabled(shape, f, s)
  {
    assert MovesAt(shape, f, s, s', Due) && MovesAt(shape, f, s, s', DueEmpty) && MovesAt(shape, f, s, s', OptionalHalt);
    assert MovesAt(shape, f, s, s', InEmpty) && MovesAt(shape, f, s, s', Idle) && MovesAt(shape, f, s, s', Budget);
    assert MovesAt(shape, f, s, s', Running) && MovesAt(shape, f, s, s', Routed);
    if f.ArriveAt? {
      assert MovesAt(shape, f, s, s', DueAt(f.i));
    }
    if f.Start? {
      forall i | 0 <= i < |s.ins|
        ensures s.ins[i] >= 1
      {
        assert MovesAt(shape, f, s, s', In(i));
      }
    }
  }

  lemma SameTokens(xs: seq<nat>, ys: seq<nat>)
    requires |xs| == |ys| && forall i: nat :: Nth(xs, i) == Nth(ys, i)
    ensures xs == ys
  {
    forall i | 0 <= i < |xs|
      ensures xs[i] == ys[i]
    {
      assert Nth(xs, i) == Nth(ys, i);
    }
  }

  lemma SameEverywhere(shape: Shape, a: State, b: State)
    requires Sizes(shape, a) && Sizes(shape, b) && forall p :: On(p, a) == On(p, b)
    ensures a == b
  {
    assert On(Due, a) == On(Due, b) && On(DueEmpty, a) == On(DueEmpty, b) && On(OptionalHalt, a) == On(OptionalHalt, b);
    assert On(InEmpty, a) == On(InEmpty, b) && On(Idle, a) == On(Idle, b) && On(Budget, a) == On(Budget, b);
    assert On(Halted, a) == On(Halted, b) && On(Running, a) == On(Running, b) && On(Routed, a) == On(Routed, b);
    assert On(Finished, a) == On(Finished, b) && On(Skipped, a) == On(Skipped, b);
    forall i: nat
      ensures Nth(a.dueAt, i) == Nth(b.dueAt, i) && Nth(a.ins, i) == Nth(b.ins, i)
      ensures Nth(a.data, i) == Nth(b.data, i) && Nth(a.empty, i) == Nth(b.empty, i)
    {
      assert On(DueAt(i), a) == On(DueAt(i), b) && On(In(i), a) == On(In(i), b);
      assert On(Data(i), a) == On(Data(i), b) && On(Empty(i), a) == On(Empty(i), b);
    }
    SameTokens(a.dueAt, b.dueAt);
    SameTokens(a.ins, b.ins);
    SameTokens(a.data, b.data);
    SameTokens(a.empty, b.empty);
  }

  /** A firing can happen, with this result, exactly if its arcs say so. */
  lemma FiresByArcs(shape: Shape, f: Firing, s: State, s': State)
    requires Sizes(shape, s) && Sizes(shape, s') && shape.join >= 1
    ensures Enabled(shape, f, s) && s' == Fire(shape, f, s) <==> Moves(shape, f, s, s')
  {
    if Enabled(shape, f, s) && s' == Fire(shape, f, s) {
      forall p
        ensures MovesAt(shape, f, s, s', p)
      {
        FireMovesAt(shape, f, s, p);
      }
    }
    if Moves(shape, f, s, s') {
      MovesEnabled(shape, f, s, s');
      var t := Fire(shape, f, s);
      forall p
        ensures On(p, s') == On(p, t)
      {
        FireMovesAt(shape, f, s, p);
        assert MovesAt(shape, f, s, s', p);
      }
      SameEverywhere(shape, s', t);
    }
  }

  // ----- the laws --------------------------------------------------------------------

  ghost predicate Resources(shape: Shape, s: State) {
    && s.budget + s.running + s.routed == shape.budget
    && (if shape.mutex then s.idle + s.running == 1 else s.idle == 0)
    && (IsJoin(shape) ==> s.due == s.dueEmpty == s.inEmpty == s.skipped == 0)
    && (!IsJoin(shape) ==> |s.dueAt| == 1 && s.dueAt[0] == 0)
  }

  /** An edge has been written once per activation routed, done or skipped. */
  ghost predicate EdgeLaw(s: State) {
    forall i :: 0 <= i < |s.data| && i < |s.empty| ==> s.data[i] + s.empty[i] == s.routed + s.done + s.skipped
  }

  /** The arrivals not accounted for: those of the activations that halted. */
  function Missing(shape: Shape, s: State, i: nat): int
    requires i < |s.ins| && i < |s.dueAt|
  {
    Activations(shape) -
    (s.dueAt[i] + s.ins[i] + s.due + s.dueEmpty + s.inEmpty + s.running + s.routed + s.done + s.skipped)
  }

  ghost predicate ArrivalLaw(shape: Shape, s: State) {
    forall i :: 0 <= i < |s.ins| && i < |s.dueAt| ==> 0 <= Missing(shape, s, i) <= s.halt
  }

  /** Activations under way or still possible. */
  ghost predicate StartLaw(shape: Shape, s: State) {
    forall i :: 0 <= i < |s.ins| && i < |s.dueAt| ==>
      s.dueAt[i] + s.ins[i] + s.due + s.running + s.routed + s.done <= Startable(shape)
  }

  ghost predicate Laws(shape: Shape, s: State) {
    Sizes(shape, s) && Resources(shape, s) && EdgeLaw(s) && ArrivalLaw(shape, s) && StartLaw(shape, s)
  }

  lemma InitialLaws(shape: Shape)
    requires Valid(shape)
    ensures Laws(shape, Initial(shape))
  {
  }

  lemma FiringKeepsResources(shape: Shape, f: Firing, s: State)
    requires Enabled(shape, f, s) && Sizes(shape, s) && Resources(shape, s)
    ensures Sizes(shape, Fire(shape, f, s)) && Resources(shape, Fire(shape, f, s))
  {
  }

  lemma FiringKeepsEdges(shape: Shape, f: Firing, s: State)
    requires Enabled(shape, f, s) && Sizes(shape, s) && EdgeLaw(s)
    ensures EdgeLaw(Fire(shape, f, s))
  {
  }

  lemma FiringKeepsArrivals(shape: Shape, f: Firing, s: State)
    requires Enabled(shape, f, s) && Sizes(shape, s) && Resources(shape, s) && ArrivalLaw(shape, s) && StartLaw(shape, s)
    ensures ArrivalLaw(shape, Fire(shape, f, s)) && StartLaw(shape, Fire(shape, f, s))
  {
    var s' := Fire(shape, f, s);
    forall i | 0 <= i < |s'.ins| && i < |s'.dueAt|
      ensures 0 <= Missing(shape, s', i) <= s'.halt
      ensures s'.dueAt[i] + s'.ins[i] + s'.due + s'.running + s'.routed + s'.done <= Startable(shape)
    {
      assert 0 <= Missing(shape, s, i) <= s.halt;
    }
  }

  // ----- termination -----------------------------------------------------------------

  function Sum(xs: seq<nat>): nat {
    if xs == [] then 0 else Sum(xs[..|xs| - 1]) + xs[|xs| - 1]
  }

  lemma {:induction false} SumUpdate(xs: seq<nat>, i: nat, x: nat)
    requires i < |xs|
    ensures Sum(xs[i := x]) + xs[i] == Sum(xs) + x
  {
    var n := |xs| - 1;
    if i == n {
      assert xs[i := x][..n] == xs[..n];
    } else {
      SumUpdate(xs[..n], i, x);
      assert xs[i := x][..n] == xs[..n][i := x];
    }
  }

  lemma {:induction false} SumPlus(xs: seq<nat>)
    ensures Sum(Plus(xs)) == Sum(xs) + |xs|
  {
    if xs != [] {
      SumPlus(xs[..|xs| - 1]);
      assert Plus(xs)[..|xs| - 1] == Plus(xs[..|xs| - 1]);
    }
  }

  lemma SumMinus(xs: seq<nat>)
    requires forall i :: 0 <= i < |xs| ==> xs[i] >= 1
    ensures Sum(Minus(xs)) + |xs| == Sum(xs)
  {
    SumPlus(Minus(xs));
    assert Plus(Minus(xs)) == xs;
  }

  lemma {:induction false} SumRepeat(n: nat, x: nat)
    ensures Sum(Repeat(n, x)) == n * x
  {
    if n > 0 {
      SumRepeat(n - 1, x);
      assert Repeat(n, x)[..n - 1] == Repeat(n - 1, x);
      assert n * x == (n - 1) * x + x;
    }
  }

  /** What is left to fire, at most. */
  function Fuel(s: State): nat {
    4 * s.due + 2 * s.dueEmpty + 4 * Sum(s.dueAt) + s.optionalHalt + 3 * Sum(s.ins) + s.inEmpty + 2 * s.running + s.routed
  }

  lemma FiringBurns(shape: Shape, f: Firing, s: State)
    requires Valid(shape) && Enabled(shape, f, s) && Sizes(shape, s)
    ensures Fuel(Fire(shape, f, s)) < Fuel(s)
  {
    match f
    case ArriveData => SumPlus(s.ins);
    case ArriveAt(i) =>
      SumUpdate(s.dueAt, i, s.dueAt[i] - 1);
      SumUpdate(s.ins, i, s.ins[i] + 1);
    case Start => SumMinus(s.ins);
    case _ =>
  }

  lemma {:induction false} RunLaws(shape: Shape, s0: State, fs: seq<Firing>, s: State)
    requires Valid(shape) && Laws(shape, s0) && Runs(shape, s0, fs, s)
    ensures Laws(shape, s) && Fuel(s) + |fs| <= Fuel(s0)
    decreases fs
  {
    if fs != [] {
      FiringKeepsResources(shape, fs[0], s0);
      FiringKeepsEdges(shape, fs[0], s0);
      FiringKeepsArrivals(shape, fs[0], s0);
      FiringBurns(shape, fs[0], s0);
      RunLaws(shape, Fire(shape, fs[0], s0), fs[1..], s);
    }
  }

  /** Every run ends: four firings per arrival at most, and one about the halt. */
  lemma RunsAreBounded(shape: Shape, fs: seq<Firing>, s: State)
    requires Valid(shape) && Runs(shape, Initial(shape), fs, s)
    ensures |fs| <= 4 * (if IsJoin(shape) then shape.join else shape.arrivals) + 1
  {
    InitialLaws(shape);
    RunLaws(shape, Initial(shape), fs, s);
    SumRepeat(shape.join, if IsJoin(shape) then 1 else 0);
    SumRepeat(shape.join, 0);
  }

  lemma ReachableLaws(shape: Shape, s: State)
    requires Valid(shape) && Reachable(shape, s)
    ensures Laws(shape, s)
  {
    var fs :| Runs(shape, Initial(shape), fs, s);
    InitialLaws(shape);
    RunLaws(shape, Initial(shape), fs, s);
  }

  // ----- the contract ----------------------------------------------------------------

  /** A clause's tokens: never more than `n`, and exactly `n` unless the node was halted. */
  ghost predicate Counts(tokens: nat, n: nat, halted: bool) {
    tokens <= n && (!halted ==> tokens == n)
  }

  ghost predicate Contract(shape: Shape, s: State)
    requires Sizes(shape, s)
  {
    var halted := s.halt >= 1;
    // The count clauses.
    && (forall i :: 0 <= i < shape.edges ==> Counts(s.data[i] + s.empty[i], Activations(shape), halted))
    && (shape.mutex ==> s.idle == 1)
    && s.budget == shape.budget
    && Counts(if IsJoin(shape) then s.done else s.done + s.skipped, Activations(shape), halted)
    // Nothing rests anywhere else, except arrivals a halt has stranded.
    && s.running == 0 && s.routed == 0
    && (!halted ==> s.inEmpty == 0 && forall i :: 0 <= i < |s.ins| ==> s.ins[i] == 0)
    && s.due == 0 && s.dueEmpty == 0 && s.optionalHalt == 0 && forall i :: 0 <= i < |s.dueAt| ==> s.dueAt[i] == 0
  }

  /** With nothing left to fire the environment has delivered and nothing is under way. */
  lemma RestingPlaces(shape: Shape, s: State)
    requires Valid(shape) && Laws(shape, s) && AtRest(shape, s)
    ensures s.running == 0 && s.routed == 0 && s.due == 0 && s.dueEmpty == 0 && s.optionalHalt == 0
    ensures forall i :: 0 <= i < |s.dueAt| ==> s.dueAt[i] == 0
    ensures s.halt == 0 ==> s.inEmpty == 0 && exists i :: 0 <= i < |s.ins| && s.ins[i] == 0
  {
    assert !Enabled(shape, Halt, s) && !Enabled(shape, Done, s) && !Enabled(shape, ArriveEmpty, s);
    assert !Enabled(shape, ArriveOnlyEmpty, s) && !Enabled(shape, DeclineHalt, s);
    assert !Enabled(shape, Start, s) && !Enabled(shape, Skip, s);
    forall i | 0 <= i < |s.dueAt|
      ensures s.dueAt[i] == 0
    {
      assert !Enabled(shape, ArriveAt(i), s);
    }
  }

  /** The contract holds at every resting marking, whatever the size, budget and routing. */
  lemma ContractHolds(shape: Shape, s: State)
    requires Valid(shape) && Reachable(shape, s) && AtRest(shape, s)
    ensures Sizes(shape, s) && Contract(shape, s)
  {
    ReachableLaws(shape, s);
    RestingPlaces(shape, s);
    assert 0 <= Missing(shape, s, 0) <= s.halt;
    if s.halt == 0 {
      var j :| 0 <= j < |s.ins| && s.ins[j] == 0;
      assert Missing(shape, s, j) == 0;
      forall i | 0 <= i < |s.ins|
        ensures s.ins[i] == 0
      {
        assert Missing(shape, s, i) == 0;
      }
    }
  }

  /** Not even under way is an edge written, or an activation recorded, more often than allowed. */
  lemma NeverTooMany(shape: Shape, s: State, i: nat)
    requires Valid(shape) && Reachable(shape, s) && i < shape.edges
    ensures Sizes(shape, s)
    ensures s.data[i] + s.empty[i] <= Activations(shape) && s.done + s.skipped <= Activations(shape)
    ensures s.budget <= shape.budget && s.idle <= 1
  {
    ReachableLaws(shape, s);
    assert 0 <= Missing(shape, s, 0);
  }

  // ----- the marking, from the firings -----------------------------------------------

  /** What a firing can be counted as; `Routes` to an edge, `Arrives` at an input index. */
  datatype Event =
    | DataArrives | EmptyArrives | OnlyEmptyArrives | IndexArrives(i: nat) | Arrives(i: nat) | HaltArrives | HaltDeclined
    | Starts | Succeeds | Halts | Finishes | Skips | Routes(i: nat, isData: bool)

  predicate Is(e: Event, f: Firing) {
    match e
    case DataArrives => f.ArriveData?
    case EmptyArrives => f.ArriveEmpty?
    case OnlyEmptyArrives => f.ArriveOnlyEmpty?
    case IndexArrives(i) => f == ArriveAt(i)
    case Arrives(i) => f.ArriveData? || f == ArriveAt(i)
    case HaltArrives => f.ArriveHalt?
    case HaltDeclined => f.DeclineHalt?
    case Starts => f.Start?
    case Succeeds => f.Succeed?
    case Halts => f.Halt?
    case Finishes => f.Done?
    case Skips => f.Skip?
    case Routes(i, isData) => f.Succeed? && i < |f.routes| && f.routes[i] == isData
  }

  function Count(fs: seq<Firing>, e: Event): nat {
    if fs == [] then 0 else (if Is(e, fs[0]) then 1 else 0) + Count(fs[1..], e)
  }

  lemma {:induction false} DueCounts(shape: Shape, s0: State, fs: seq<Firing>, s: State)
    requires Runs(shape, s0, fs, s)
    ensures s.due == s0.due - Count(fs, DataArrives) - Count(fs, EmptyArrives)
    ensures s.dueEmpty == s0.dueEmpty - Count(fs, OnlyEmptyArrives)
    decreases fs
  {
    if fs != [] {
      DueCounts(shape, Fire(shape, fs[0], s0), fs[1..], s);
    }
  }

  lemma {:induction false} HaltChoiceCounts(shape: Shape, s0: State, fs: seq<Firing>, s: State)
    requires Runs(shape, s0, fs, s)
    ensures s.optionalHalt == s0.optionalHalt - Count(fs, HaltArrives) - Count(fs, HaltDeclined)
    decreases fs
  {
    if fs != [] {
      HaltChoiceCounts(shape, Fire(shape, fs[0], s0), fs[1..], s);
    }
  }

  lemma {:induction false} EmptyInputCounts(shape: Shape, s0: State, fs: seq<Firing>, s: State)
    requires Runs(shape, s0, fs, s)
    ensures s.inEmpty == s0.inEmpty + Count(fs, EmptyArrives) + Count(fs, OnlyEmptyArrives) - Count(fs, Skips)
    decreases fs
  {
    if fs != [] {
      EmptyInputCounts(shape, Fire(shape, fs[0], s0), fs[1..], s);
    }
  }

  lemma {:induction false} RunningCounts(shape: Shape, s0: State, fs: seq<Firing>, s: State)
    requires Runs(shape, s0, fs, s)
    ensures s.running == s0.running + Count(fs, Starts) - Count(fs, Succeeds) - Count(fs, Halts)
    decreases fs
  {
    if fs != [] {
      RunningCounts(shape, Fire(shape, fs[0], s0), fs[1..], s);
    }
  }

  lemma {:induction false} RoutedCounts(shape: Shape, s0: State, fs: seq<Firing>, s: State)
    requires Runs(shape, s0, fs, s)
    ensures s.routed == s0.routed + Count(fs, Succeeds) - Count(fs, Finishes)
    decreases fs
  {
    if fs != [] {
      RoutedCounts(shape, Fire(shape, fs[0], s0), fs[1..], s);
    }
  }

  lemma {:induction false} HistoryCounts(shape: Shape, s0: State, fs: seq<Firing>, s: State)
    requires Runs(shape, s0, fs, s)
    ensures s.done == s0.done + Count(fs, Finishes) && s.skipped == s0.skipped + Count(fs, Skips)
    decreases fs
  {
    if fs != [] {
      HistoryCounts(shape, Fire(shape, fs[0], s0), fs[1..], s);
    }
  }

  lemma {:induction false} HaltCounts(shape: Shape, s0: State, fs: seq<Firing>, s: State)
    requires Runs(shape, s0, fs, s)
    ensures s.halt == s0.halt + Count(fs, HaltArrives) + Count(fs, Halts)
    decreases fs
  {
    if fs != [] {
      HaltCounts(shape, Fire(shape, fs[0], s0), fs[1..], s);
    }
  }

  lemma {:induction false} BudgetCounts(shape: Shape, s0: State, fs: seq<Firing>, s: State)
    requires Runs(shape, s0, fs, s)
    ensures s.budget == s0.budget - Count(fs, Starts) + Count(fs, Halts) + Count(fs, Finishes)
    decreases fs
  {
    if fs != [] {
      BudgetCounts(shape, Fire(shape, fs[0], s0), fs[1..], s);
    }
  }

  lemma {:induction false} IdleCounts(shape: Shape, s0: State, fs: seq<Firing>, s: State)
    requires Runs(shape, s0, fs, s)
    ensures s.idle == if !shape.mutex then s0.idle
                      else s0.idle - Count(fs, Starts) + Count(fs, Succeeds) + Count(fs, Halts)
    decreases fs
  {
    if fs != [] {
      IdleCounts(shape, Fire(shape, fs[0], s0), fs[1..], s);
    }
  }

  lemma {:induction false} IndexCounts(shape: Shape, s0: State, fs: seq<Firing>, s: State, i: nat)
    requires Runs(shape, s0, fs, s) && i < |s0.ins| && i < |s0.dueAt|
    ensures |s.ins| == |s0.ins| && |s.dueAt| == |s0.dueAt|
    ensures s.ins[i] == s0.ins[i] + Count(fs, Arrives(i)) - Count(fs, Starts)
    ensures s.dueAt[i] == s0.dueAt[i] - Count(fs, IndexArrives(i))
    decreases fs
  {
    if fs != [] {
      IndexCounts(shape, Fire(shape, fs[0], s0), fs[1..], s, i);
    }
  }

  lemma {:induction false} DataCounts(shape: Shape, s0: State, fs: seq<Firing>, s: State, i: nat)
    requires Runs(shape, s0, fs, s) && i < |s0.data| && i < |s0.empty|
    ensures |s.data| == |s0.data| && |s.empty| == |s0.empty|
    ensures s.data[i] == s0.data[i] + Count(fs, Routes(i, true))
    decreases fs
  {
    if fs != [] {
      DataCounts(shape, Fire(shape, fs[0], s0), fs[1..], s, i);
    }
  }

  lemma {:induction false} EmptyCounts(shape: Shape, s0: State, fs: seq<Firing>, s: State, i: nat)
    requires Runs(shape, s0, fs, s) && i < |s0.data| && i < |s0.empty|
    ensures |s.data| == |s0.data| && |s.empty| == |s0.empty|
    ensures s.empty[i] == s0.empty[i] + Count(fs, Routes(i, false)) + Count(fs, Skips)
    decreases fs
  {
    if fs != [] {
      EmptyCounts(shape, Fire(shape, fs[0], s0), fs[1..], s, i);
    }
  }

  /** Every place of a reachable marking, from how often each transition has fired. */
  lemma MarkingEquation(shape: Shape, fs: seq<Firing>, s: State, i: nat, e: nat)
    requires Valid(shape) && Runs(shape, Initial(shape), fs, s) && i < shape.join && e < shape.edges
    ensures Sizes(shape, s)
    ensures s.budget == shape.budget - Count(fs, Starts) + Count(fs, Halts) + Count(fs, Finishes)
    ensures s.running == Count(fs, Starts) - Count(fs, Succeeds) - Count(fs, Halts)
    ensures s.routed == Count(fs, Succeeds) - Count(fs, Finishes)
    ensures s.done == Count(fs, Finishes) && s.skipped == Count(fs, Skips)
    ensures s.halt == Count(fs, HaltArrives) + Count(fs, Halts)
    ensures s.ins[i] == Count(fs, Arrives(i)) - Count(fs, Starts)
    ensures s.inEmpty == Count(fs, EmptyArrives) + Count(fs, OnlyEmptyArrives) - Count(fs, Skips)
    ensures s.data[e] == Count(fs, Routes(e, true))
    ensures s.empty[e] == Count(fs, Routes(e, false)) + Count(fs, Skips)
  {
    DueCounts(shape, Initial(shape), fs, s);
    HaltChoiceCounts(shape, Initial(shape), fs, s);
    EmptyInputCounts(shape, Initial(shape), fs, s);
    RunningCounts(shape, Initial(shape), fs, s);
    RoutedCounts(shape, Initial(shape), fs, s);
    HistoryCounts(shape, Initial(shape), fs, s);
    HaltCounts(shape, Initial(shape), fs, s);
    BudgetCounts(shape, Initial(shape), fs, s);
    IdleCounts(shape, Initial(shape), fs, s);
    IndexCounts(shape, Initial(shape), fs, s, i);
    DataCounts(shape, Initial(shape), fs, s, e);
    EmptyCounts(shape, Initial(shape), fs, s, e);
  }

  /**
   At rest the environment has delivered just what the contract describes: on a join one token
   for each index, else as many arrivals as there are, of which at most one carries data if they
   exclude each other; and it has decided once about the halt.
   */
  lemma DeliveredAtRest(shape: Shape, fs: seq<Firing>, s: State, i: nat)
    requires Valid(shape) && Runs(shape, Initial(shape), fs, s) && AtRest(shape, s) && i < shape.join
    ensures Count(fs, HaltArrives) + Count(fs, HaltDeclined) == 1
    ensures IsJoin(shape) ==> Count(fs, IndexArrives(i)) == 1
    ensures !IsJoin(shape) ==> Count(fs, DataArrives) + Count(fs, EmptyArrives) + Count(fs, OnlyEmptyArrives) == shape.arrivals
    ensures !IsJoin(shape) ==> Count(fs, DataArrives) + Count(fs, EmptyArrives) == if shape.exclusive then 1 else shape.arrivals
  {
    assert Reachable(shape, s);
    ReachableLaws(shape, s);
    RestingPlaces(shape, s);
    DueCounts(shape, Initial(shape), fs, s);
    HaltChoiceCounts(shape, Initial(shape), fs, s);
    IndexCounts(shape, Initial(shape), fs, s, i);
  }

  /** Once halted, nothing starts or is skipped any more; what is under way is finished. */
  lemma {:induction false} HaltStops(shape: Shape, s0: State, fs: seq<Firing>, s: State)
    requires Runs(shape, s0, fs, s) && s0.halt >= 1
    ensures s.halt >= 1 && Count(fs, Starts) == 0 && Count(fs, Skips) == 0
    decreases fs
  {
    if fs != [] {
      HaltStops(shape, Fire(shape, fs[0], s0), fs[1..], s);
    }
  }

  // ----- the budget plateau ----------------------------------------------------------

  /** `s` with the tokens a budget of `budget` would have left. */
  function Rebudgeted(s: State, budget: nat): State {
    s.(budget := if budget >= s.running + s.routed then budget - s.running - s.routed else 0)
  }

  ghost predicate Generous(shape: Shape, budget: nat) {
    budget >= 1 && budget >= Startable(shape)
  }

  /** What can start may start under every generous budget. */
  lemma RebudgetedStart(shape: Shape, budget: nat, s: State)
    requires Valid(shape) && Laws(shape, s) && Enabled(shape, Start, s)
    requires Generous(shape, budget)
    ensures Rebudgeted(s, budget).budget >= 1
  {
    assert s.dueAt[0] + s.ins[0] + s.due + s.running + s.routed + s.done <= Startable(shape);
  }

  /** What is under way or recorded never exceeds a generous budget. */
  lemma RebudgetedRoom(shape: Shape, budget: nat, s: State)
    requires Valid(shape) && Laws(shape, s) && Generous(shape, budget)
    ensures Rebudgeted(s, budget).budget + s.running + s.routed == budget
  {
    assert s.dueAt[0] + s.ins[0] + s.due + s.running + s.routed + s.done <= Startable(shape);
  }

  lemma RebudgetedEnabled(shape: Shape, budget: nat, f: Firing, s: State)
    requires Valid(shape) && Laws(shape, s) && Enabled(shape, f, s) && Generous(shape, budget)
    ensures Enabled(shape.(budget := budget), f, Rebudgeted(s, budget))
  {
    if f.Start? {
      RebudgetedStart(shape, budget, s);
    }
  }

  lemma RebudgetedFire(shape: Shape, budget: nat, f: Firing, s: State)
    requires Enabled(shape, f, s) && Enabled(shape.(budget := budget), f, Rebudgeted(s, budget))
    requires Rebudgeted(s, budget).budget + s.running + s.routed == budget
    ensures Fire(shape.(budget := budget), f, Rebudgeted(s, budget)) == Rebudgeted(Fire(shape, f, s), budget)
  {
  }

  /** With two generous budgets the same transitions are enabled and do the same. */
  lemma RebudgetedFiring(shape: Shape, budget: nat, f: Firing, s: State)
    requires Valid(shape) && Laws(shape, s) && Enabled(shape, f, s) && Generous(shape, budget)
    ensures Enabled(shape.(budget := budget), f, Rebudgeted(s, budget))
    ensures Fire(shape.(budget := budget), f, Rebudgeted(s, budget)) == Rebudgeted(Fire(shape, f, s), budget)
  {
    RebudgetedRoom(shape, budget, s);
    RebudgetedEnabled(shape, budget, f, s);
    RebudgetedFire(shape, budget, f, s);
  }

  lemma {:induction false} RebudgetedRuns(shape: Shape, budget: nat, s0: State, fs: seq<Firing>, s: State)
    requires Valid(shape) && Laws(shape, s0) && Runs(shape, s0, fs, s)
    requires Generous(shape, shape.budget) && Generous(shape, budget)
    ensures Runs(shape.(budget := budget), Rebudgeted(s0, budget), fs, Rebudgeted(s, budget))
    decreases fs
  {
    if fs != [] {
      RebudgetedFiring(shape, budget, fs[0], s0);
      RunLaws(shape, s0, [fs[0]], Fire(shape, fs[0], s0)) by {
        assert Runs(shape, Fire(shape, fs[0], s0), [fs[0]][1..], Fire(shape, fs[0], s0));
      }
      RebudgetedRuns(shape, budget, Fire(shape, fs[0], s0), fs[1..], s);
    }
  }

  lemma RebudgetedReachable(shape: Shape, budget: nat, s: State)
    requires Valid(shape) && Reachable(shape, s)
    requires Generous(shape, shape.budget) && Generous(shape, budget)
    ensures Reachable(shape.(budget := budget), Rebudgeted(s, budget))
    ensures Rebudgeted(Rebudgeted(s, budget), shape.budget) == s
  {
    var fs :| Runs(shape, Initial(shape), fs, s);
    InitialLaws(shape);
    RebudgetedRuns(shape, budget, Initial(shape), fs, s);
    assert Rebudgeted(Initial(shape), budget) == Initial(shape.(budget := budget));
    ReachableLaws(shape, s);
  }

  /**
   Two budgets that are both at least the activations possible reach the same markings, one to
   one, up to the tokens on the budget place: the plateau of the sweeps.
   */
  lemma BudgetPlateau(shape: Shape, budget: nat, s: State)
    requires Valid(shape) && s.budget + s.running + s.routed == shape.budget
    requires Generous(shape, shape.budget) && Generous(shape, budget)
    ensures Reachable(shape, s) <==> Reachable(shape.(budget := budget), Rebudgeted(s, budget)) && s == Rebudgeted(Rebudgeted(s, budget), shape.budget)
  {
    var other := shape.(budget := budget);
    if Reachable(shape, s) {
      RebudgetedReachable(shape, budget, s);
    }
    if Reachable(other, Rebudgeted(s, budget)) {
      RebudgetedReachable(other, shape.budget, Rebudgeted(s, budget));
      assert other.(budget := shape.budget) == shape;
    }
  }

  lemma {:induction false} RunsThen(shape: Shape, s0: State, fs: seq<Firing>, s: State, f: Firing)
    requires Runs(shape, s0, fs, s) && Enabled(shape, f, s)
    ensures Runs(shape, s0, fs + [f], Fire(shape, f, s))
    decreases fs
  {
    if fs == [] {
      assert Runs(shape, Fire(shape, f, s), ([] + [f])[1..], Fire(shape, f, s));
    } else {
      RunsThen(shape, Fire(shape, fs[0], s0), fs[1..], s, f);
      assert (fs + [f])[1..] == fs[1..] + [f];
    }
  }

  lemma FiredReachable(shape: Shape, s: State, f: Firing)
    requires Reachable(shape, s) && Enabled(shape, f, s)
    ensures Reachable(shape, Fire(shape, f, s))
  {
    var fs :| Runs(shape, Initial(shape), fs, s);
    RunsThen(shape, Initial(shape), fs, s, f);
  }

  /** Every index of the node gets its next token. */
  lemma ArriveEverywhere(shape: Shape, s: State) returns (s': State)
    requires Valid(shape) && Reachable(shape, s) && Sizes(shape, s)
    requires if IsJoin(shape) then forall i :: 0 <= i < |s.dueAt| ==> s.dueAt[i] == 1 else s.due >= 1
    ensures Reachable(shape, s') && Sizes(shape, s') && forall i :: 0 <= i < |s'.ins| ==> s'.ins[i] >= 1
    ensures s' == s.(due := s'.due, dueAt := s'.dueAt, ins := s'.ins)
    ensures !IsJoin(shape) ==> s'.due == s.due - 1
  {
    if IsJoin(shape) {
      s' := ArriveUpTo(shape, s, shape.join);
    } else {
      FiredReachable(shape, s, ArriveData);
      s' := Fire(shape, ArriveData, s);
    }
  }

  lemma {:induction false} ArriveUpTo(shape: Shape, s: State, n: nat) returns (s': State)
    requires Reachable(shape, s) && Sizes(shape, s) && n <= shape.join
    requires forall i :: 0 <= i < |s.dueAt| ==> s.dueAt[i] == 1
    ensures Reachable(shape, s') && Sizes(shape, s') && forall i :: 0 <= i < n ==> s'.ins[i] >= 1
    ensures forall i :: n <= i < |s'.dueAt| ==> s'.dueAt[i] == 1
    ensures s' == s.(dueAt := s'.dueAt, ins := s'.ins)
  {
    s' := s;
    if n > 0 {
      s' := ArriveUpTo(shape, s, n - 1);
      FiredReachable(shape, s', ArriveAt(n - 1));
      s' := Fire(shape, ArriveAt(n - 1), s');
    }
  }

  /** An activation that is ready to start runs and routes as it may. */
  lemma StartAndRoute(shape: Shape, s: State, routes: seq<bool>) returns (s': State)
    requires Reachable(shape, s) && Enabled(shape, Start, s) && Routable(shape, routes)
    ensures Reachable(shape, s') && s'.data == Add(s.data, routes, true) && s'.empty == Add(s.empty, routes, false)
    ensures s'.routed == s.routed + 1 && s'.running == s.running && s'.budget == s.budget - 1
    ensures s'.idle == s.idle && s'.halt == s.halt && s'.due == s.due && s'.done == s.done && s'.skipped == s.skipped
  {
    FiredReachable(shape, s, Start);
    var running := Fire(shape, Start, s);
    FiredReachable(shape, running, Succeed(routes));
    s' := Fire(shape, Succeed(routes), running);
  }

  /** `n` activations started and routed one after the other, none of them done. */
  lemma {:induction false} RouteMany(shape: Shape, n: nat) returns (s: State)
    requires Valid(shape) && n <= shape.budget && n <= Startable(shape)
    ensures Reachable(shape, s) && Sizes(shape, s)
    ensures s.routed == n && s.running == 0 && s.halt == 0 && s.budget == shape.budget - n
    ensures s.idle == if shape.mutex then 1 else 0
    ensures n == 0 ==> s == Initial(shape)
    ensures !IsJoin(shape) ==> s.due == Startable(shape) - n
  {
    if n == 0 {
      s := Initial(shape);
      assert Runs(shape, s, [], s);
    } else {
      s := RouteMany(shape, n - 1);
      s := ArriveEverywhere(shape, s);
      s := StartAndRoute(shape, s, seq(shape.edges, _ => true));
      ReachableLaws(shape, s);
    }
  }

  /**
   Below the plateau one more token of budget always makes a difference, serialised or not: it
   lets one more activation be under way at once. So the plateau starts exactly at the number
   of activations that can start.
   */
  lemma BudgetBinds(shape: Shape)
    requires Valid(shape) && shape.budget < Startable(shape)
    ensures exists s :: Reachable(shape.(budget := shape.budget + 1), s) && s.running + s.routed == shape.budget + 1
    ensures forall s :: Reachable(shape, s) ==> s.running + s.routed <= shape.budget
  {
    var s := RouteMany(shape.(budget := shape.budget + 1), shape.budget + 1);
    forall s | Reachable(shape, s)
      ensures s.running + s.routed <= shape.budget
    {
      ReachableLaws(shape, s);
    }
  }

  // ----- routing ---------------------------------------------------------------------

  /** The one activation has routed, data to the edges of `routes` and empty to the others. */
  ghost predicate HasRouted(shape: Shape, s: State, routes: seq<bool>) {
    && |routes| == |s.data| == |s.empty| == shape.edges && s.routed == 1 && s.done == 0 && s.skipped == 0
    && forall e :: 0 <= e < |routes| ==>
         s.data[e] == (if routes[e] then 1 else 0) && s.empty[e] == (if routes[e] then 0 else 1)
  }

  /** Where the edges do not choose for themselves, they hold the same. */
  lemma {:induction false} CorrelatedEdges(shape: Shape, s0: State, fs: seq<Firing>, s: State)
    requires Runs(shape, s0, fs, s) && !shape.independent && |s0.data| == |s0.empty| == shape.edges
    requires AllSame(s0.data) && AllSame(s0.empty)
    ensures AllSame(s.data) && AllSame(s.empty)
    decreases fs
  {
    if fs != [] {
      CorrelatedEdges(shape, Fire(shape, fs[0], s0), fs[1..], s);
    }
  }

  /** A routing can happen exactly if the edges choose for themselves or all go the same way. */
  lemma RoutingsExactly(shape: Shape, routes: seq<bool>)
    requires Valid(shape) && |routes| == shape.edges
    ensures (exists s :: Reachable(shape, s) && HasRouted(shape, s, routes)) <==> shape.independent || AllSame(routes)
  {
    if s :| Reachable(shape, s) && HasRouted(shape, s, routes) {
      if !shape.independent {
        var fs :| Runs(shape, Initial(shape), fs, s);
        CorrelatedEdges(shape, Initial(shape), fs, s);
        forall i, j | 0 <= i < |routes| && 0 <= j < |routes|
          ensures routes[i] == routes[j]
        {
          assert s.data[i] == s.data[j];
        }
      }
    }
    if shape.independent || AllSame(routes) {
      var s := FirstRouted(shape, routes);
    }
  }

  lemma FirstRouted(shape: Shape, routes: seq<bool>) returns (s: State)
    requires Valid(shape) && Routable(shape, routes)
    ensures Reachable(shape, s) && HasRouted(shape, s, routes)
  {
    s := Initial(shape);
    assert Runs(shape, s, [], s);
    s := ArriveEverywhere(shape, s);
    s := StartAndRoute(shape, s, routes);
  }
}
