/** The verdicts drawn from an exploration, and what each of them says about the runs of the net. */
module Verdicts {
  import opened OutputSpecs
  import opened OutputLaws
  import opened PetriNets
  import opened FiringLaws
  import opened Explorer
  import opened Wrappers

  /** The six property types, over place names. */
  datatype Property =
    | PlaceBound(place: string, bound: int)
    | MutualExclusion(places: seq<string>)
    | Unreachable(places: seq<string>)
    | DeadlockFree(sinks: seq<string>)
    | TerminatesAtSink(sinks: seq<string>)
    | QuiescentCount(places: seq<string>, min: int, max: Option<int>)

  /** The tokens on the named place; a name the net does not know counts zero. */
  function Count(idx: map<string, nat>, m: Marking, p: string): int {
    if p in idx && idx[p] < |m| then m[idx[p]] else 0
  }

  /** How many of the listed places are marked, repetitions included. */
  function MarkedAmong(idx: map<string, nat>, m: Marking, ps: seq<string>): nat {
    if ps == [] then 0
    else MarkedAmong(idx, m, ps[..|ps| - 1]) + if Count(idx, m, ps[|ps| - 1]) >= 1 then 1 else 0
  }

  /** The tokens across the set of the listed places. */
  function Total(idx: map<string, nat>, m: Marking, ps: seq<string>): int {
    if ps == [] then 0
    else
      var p := ps[|ps| - 1];
      Total(idx, m, ps[..|ps| - 1]) + if p in ps[..|ps| - 1] then 0 else Count(idx, m, p)
  }

  /** Only transitions a deadline may still disable are enabled. */
  predicate Quiescent(net: Net, m: Marking)
    requires WellFormed(net) && |m| == net.places
  {
    forall i :: 0 <= i < |net.transitions| && Enabled(net.transitions[i], m) ==> net.transitions[i].reapable
  }

  predicate Bad(net: Net, prop: Property, idx: map<string, nat>, m: Marking)
    requires WellFormed(net) && |m| == net.places
  {
    match prop
    case PlaceBound(p, bound) => Count(idx, m, p) > bound
    case MutualExclusion(ps) => MarkedAmong(idx, m, ps) >= 2
    case Unreachable(ps) => forall i :: 0 <= i < |ps| ==> Count(idx, m, ps[i]) >= 1
    case DeadlockFree(sinks) =>
      Quiescent(net, m) && exists i :: 0 <= i < |m| && m[i] > 0 && forall s :: s in sinks && s in idx ==> idx[s] != i
    case TerminatesAtSink(sinks) =>
      Quiescent(net, m) && forall i :: 0 <= i < |sinks| ==> Count(idx, m, sinks[i]) <= 0
    case QuiescentCount(ps, min, max) =>
      Quiescent(net, m) && (Total(idx, m, ps) < min || (max.Some? && Total(idx, m, ps) > max.value))
  }

  // ----- what is violated, said without computing it ---------------------------------

  /** The named place holds `n` tokens; a place the net does not know holds none. */
  ghost predicate HasTokens(idx: map<string, nat>, m: Marking, p: string, n: int) {
    if p in idx && idx[p] < |m| then n == m[idx[p]] else n == 0
  }

  ghost predicate Marks(idx: map<string, nat>, m: Marking, p: string) {
    exists n :: HasTokens(idx, m, p, n) && n >= 1
  }

  /** Whatever may start has a deadline that may still disable it. */
  ghost predicate Resting(net: Net, m: Marking)
    requires WellFormed(net) && |m| == net.places
  {
    forall i :: 0 <= i < |net.transitions| && MayStart(net.transitions[i], m) ==> net.transitions[i].reapable
  }

  ghost function SumOver(f: string -> int, ps: set<string>): int {
    if ps == {} then 0
    else
      var p :| p in ps;
      f(p) + SumOver(f, ps - {p})
  }

  function Named(ps: seq<string>): set<string> {
    set p | p in ps
  }

  /** The named places hold `n` tokens together, each place counted once. */
  ghost predicate HaveTokens(idx: map<string, nat>, m: Marking, ps: set<string>, n: int) {
    exists f: string -> int :: (forall p :: p in ps ==> HasTokens(idx, m, p, f(p))) && n == SumOver(f, ps)
  }

  ghost predicate Violates(net: Net, prop: Property, idx: map<string, nat>, m: Marking)
    requires WellFormed(net) && |m| == net.places
  {
    match prop
    case PlaceBound(p, bound) => exists n :: HasTokens(idx, m, p, n) && n > bound
    case MutualExclusion(ps) => exists i, j :: 0 <= i < j < |ps| && Marks(idx, m, ps[i]) && Marks(idx, m, ps[j])
    case Unreachable(ps) => forall p :: p in ps ==> Marks(idx, m, p)
    case DeadlockFree(sinks) =>
      Resting(net, m) && exists q: nat :: q < |m| && m[q] > 0 && forall s :: s in sinks ==> !(s in idx && idx[s] == q)
    case TerminatesAtSink(sinks) => Resting(net, m) && forall s :: s in sinks ==> !Marks(idx, m, s)
    case QuiescentCount(ps, min, max) =>
      Resting(net, m) && exists n :: HaveTokens(idx, m, Named(ps), n) && (n < min || (max.Some? && n > max.value))
  }

  lemma CountHasTokens(idx: map<string, nat>, m: Marking, p: string, n: int)
    ensures HasTokens(idx, m, p, n) <==> n == Count(idx, m, p)
    ensures Marks(idx, m, p) <==> Count(idx, m, p) >= 1
  {
    assert HasTokens(idx, m, p, Count(idx, m, p));
  }

  lemma {:induction false} MarkedTwice(idx: map<string, nat>, m: Marking, ps: seq<string>)
    ensures MarkedAmong(idx, m, ps) >= 1 <==> exists i :: 0 <= i < |ps| && Marks(idx, m, ps[i])
    ensures MarkedAmong(idx, m, ps) >= 2 <==> exists i, j :: 0 <= i < j < |ps| && Marks(idx, m, ps[i]) && Marks(idx, m, ps[j])
  {
    if ps != [] {
      var n := |ps| - 1;
      MarkedTwice(idx, m, ps[..n]);
      CountHasTokens(idx, m, ps[n], 0);
      assert forall i :: 0 <= i < n ==> ps[..n][i] == ps[i];
    }
  }

  lemma {:induction false} SumWithout(f: string -> int, ps: set<string>, p: string)
    requires p in ps
    ensures SumOver(f, ps) == f(p) + SumOver(f, ps - {p})
  {
    var x :| x in ps && SumOver(f, ps) == f(x) + SumOver(f, ps - {x});
    if x != p {
      SumWithout(f, ps - {x}, p);
      SumWithout(f, ps - {p}, x);
      assert ps - {x} - {p} == ps - {p} - {x};
    }
  }

  lemma {:induction false} SumsAgree(f: string -> int, g: string -> int, ps: set<string>)
    requires forall p :: p in ps ==> f(p) == g(p)
    ensures SumOver(f, ps) == SumOver(g, ps)
  {
    if ps != {} {
      var p :| p in ps;
      SumWithout(f, ps, p);
      SumWithout(g, ps, p);
      SumsAgree(f, g, ps - {p});
    }
  }

  lemma {:induction false} TotalIsSum(idx: map<string, nat>, m: Marking, ps: seq<string>, f: string -> int)
    requires forall p :: p in ps ==> f(p) == Count(idx, m, p)
    ensures Total(idx, m, ps) == SumOver(f, Named(ps))
  {
    if ps == [] {
      assert (Named(ps)) == {};
    } else {
      var n := |ps| - 1;
      var first, last, all := Named(ps[..n]), ps[n], Named(ps);
      TotalIsSum(idx, m, ps[..n], f);
      assert ps == ps[..n] + [last];
      if last in first {
        assert all == first;
      } else {
        assert all == first + {last} && all - {last} == first;
        SumWithout(f, all, last);
      }
    }
  }

  lemma TotalHasTokens(idx: map<string, nat>, m: Marking, ps: seq<string>, n: int)
    ensures HaveTokens(idx, m, Named(ps), n) <==> n == Total(idx, m, ps)
  {
    var all := Named(ps);
    var count := (p: string) => Count(idx, m, p);
    forall p
      ensures HasTokens(idx, m, p, count(p))
    {
      CountHasTokens(idx, m, p, count(p));
    }
    TotalIsSum(idx, m, ps, count);
    if f: string -> int :| (forall p :: p in all ==> HasTokens(idx, m, p, f(p))) && n == SumOver(f, all) {
      forall p | p in all
        ensures f(p) == count(p)
      {
        CountHasTokens(idx, m, p, f(p));
      }
      SumsAgree(f, count, all);
    }
  }

  lemma QuietIffResting(net: Net, m: Marking)
    requires WellFormed(net) && |m| == net.places
    ensures Quiescent(net, m) <==> Resting(net, m)
  {
    forall i | 0 <= i < |net.transitions|
      ensures Enabled(net.transitions[i], m) <==> MayStart(net.transitions[i], m)
    {
      EnabledIffMayStart(net.transitions[i], m);
    }
  }

  /** `bad` calls exactly the violations bad, for each of the six property types. */
  lemma BadIffViolates(net: Net, prop: Property, idx: map<string, nat>, m: Marking)
    requires WellFormed(net) && |m| == net.places
    ensures Bad(net, prop, idx, m) <==> Violates(net, prop, idx, m)
  {
    QuietIffResting(net, m);
    match prop
    case PlaceBound(p, bound) => CountHasTokens(idx, m, p, Count(idx, m, p));
    case MutualExclusion(ps) => MarkedTwice(idx, m, ps);
    case Unreachable(ps) => AllMarked(idx, m, ps);
    case DeadlockFree(sinks) =>
    case TerminatesAtSink(sinks) => NoneMarked(idx, m, sinks);
    case QuiescentCount(ps, min, max) =>
      TotalHasTokens(idx, m, ps, Total(idx, m, ps));
      forall n | HaveTokens(idx, m, Named(ps), n)
        ensures n == Total(idx, m, ps)
      {
        TotalHasTokens(idx, m, ps, n);
      }
  }

  lemma AllMarked(idx: map<string, nat>, m: Marking, ps: seq<string>)
    ensures (forall i :: 0 <= i < |ps| ==> Count(idx, m, ps[i]) >= 1) <==> forall p :: p in ps ==> Marks(idx, m, p)
  {
    forall p
      ensures Marks(idx, m, p) <==> Count(idx, m, p) >= 1
    {
      CountHasTokens(idx, m, p, 0);
    }
    forall p | p in ps
      ensures exists i :: 0 <= i < |ps| && ps[i] == p
    {
    }
    assert forall i :: 0 <= i < |ps| ==> ps[i] in ps;
  }

  lemma NoneMarked(idx: map<string, nat>, m: Marking, ps: seq<string>)
    ensures (forall i :: 0 <= i < |ps| ==> Count(idx, m, ps[i]) <= 0) <==> forall p :: p in ps ==> !Marks(idx, m, p)
  {
    forall p
      ensures Marks(idx, m, p) <==> Count(idx, m, p) >= 1
    {
      CountHasTokens(idx, m, p, 0);
    }
    assert forall i :: 0 <= i < |ps| ==> ps[i] in ps;
  }

  // ----- verdicts --------------------------------------------------------------------

  datatype Verdict = Violated | Holds | Undecided

  ghost predicate ViolatedAt(net: Net, prop: Property, idx: map<string, nat>, m: Marking)
    requires WellFormed(net)
  {
    Reachable(net, m) && |m| == net.places && Violates(net, prop, idx, m)
  }

  /** A reachable marking is beyond the token cap, or there are more of them than the state cap. */
  ghost predicate ExceedsCaps(net: Net)
    requires WellFormed(net)
  {
    || (exists m, p :: Reachable(net, m) && 0 <= p < |m| && m[p] > MAX_TOKENS)
    || (exists ms, w :: |ms| == MAX_STATES && Distinct(ms) && AllReachable(net, ms) && Reachable(net, w) && w !in ms)
  }

  /**
   A violation is always reached by some run, and a property is said to hold only if no run
   reaches a violation; it stays undecided only if the net itself exceeds the caps.
   */
  method Decide(net: Net, prop: Property, idx: map<string, nat>) returns (v: Verdict)
    requires WellFormed(net)
    ensures v.Violated? ==> exists m :: ViolatedAt(net, prop, idx, m)
    ensures v.Holds? ==> forall m :: !ViolatedAt(net, prop, idx, m)
    ensures v.Undecided? ==> ExceedsCaps(net)
  {
    var states, complete := Explore(net);
    for i := 0 to |states|
      invariant forall j :: 0 <= j < i ==> !ViolatedAt(net, prop, idx, states[j])
    {
      assert states[i] in states;
      Tried(net, prop, idx, states[i]);
      if Bad(net, prop, idx, states[i]) {
        return Violated;
      }
    }
    v := if complete then Holds else Undecided;
    if complete {
      NoneViolated(net, prop, idx, states);
    } else {
      CutExceedsCaps(net, states);
    }
  }

  lemma NoneViolated(net: Net, prop: Property, idx: map<string, nat>, states: seq<Marking>)
    requires WellFormed(net) && forall m :: Reachable(net, m) ==> m in states
    requires forall j :: 0 <= j < |states| ==> !ViolatedAt(net, prop, idx, states[j])
    ensures forall m :: !ViolatedAt(net, prop, idx, m)
  {
  }

  lemma CutExceedsCaps(net: Net, states: seq<Marking>)
    requires WellFormed(net) && Distinct(states) && |states| <= MAX_STATES && SomeCut(net, states)
    requires forall m :: m in states ==> Reachable(net, m)
    ensures ExceedsCaps(net)
  {
    var w :| Cut(net, states, w);
    if !TooBig(w) {
      assert AllReachable(net, states);
    }
  }

  /** One marking tried. */
  lemma Tried(net: Net, prop: Property, idx: map<string, nat>, m: Marking)
    requires WellFormed(net) && Reachable(net, m)
    ensures |m| == net.places
    ensures ViolatedAt(net, prop, idx, m) <==> Bad(net, prop, idx, m)
  {
    ReachableSize(net, m);
    BadIffViolates(net, prop, idx, m);
  }

  /** In an untimed net whose outputs offer a choice, quiescent means that nothing can fire. */
  lemma QuiescentIffStuck(net: Net, m: Marking)
    requires WellFormed(net) && |m| == net.places
    requires forall t :: t in net.transitions ==> !t.reapable && (t.out.Some? ==> Choosable(t.out.value))
    ensures Quiescent(net, m) <==> forall m' :: !Step(net, m, m')
  {
    if i :| 0 <= i < |net.transitions| && Enabled(net.transitions[i], m) {
      var t := net.transitions[i];
      if t.out.Some? {
        LeafPlacesAreClaimed(t.out.value, 0);
      }
      assert |Outcomes(t)| > 0;
      assert Leads(net, m, i, 0, Fire(t, m, Outcomes(t)[0]));
      assert Step(net, m, Fire(t, m, Outcomes(t)[0]));
    }
    if m' :| Step(net, m, m') {
      var i: nat, j: nat :| Leads(net, m, i, j, m');
      assert net.transitions[i] in net.transitions;
    }
  }

  /** Resting, if every output offers a branch: whatever step is still possible has a deadline. */
  lemma RestingIffStepsReapable(net: Net, m: Marking)
    requires WellFormed(net) && |m| == net.places && AllDistinct(net)
    requires forall t :: t in net.transitions && t.out.Some? ==> Offers(t.out.value)
    ensures Resting(net, m) <==> forall i: nat, b, m' :: MayStep(net, m, i, b, m') ==> net.transitions[i].reapable
  {
    forall i: nat | i < |net.transitions| && MayStart(net.transitions[i], m)
      ensures exists b, m' :: MayStep(net, m, i, b, m')
    {
      var t := net.transitions[i];
      assert t in net.transitions;
      if t.out.Some? {
        LiveIsNamed(t.out.value, 0);
      }
      var b := Outcomes(t)[0];
      OutcomesIffMayWrite(t, b);
      EnabledIffMayStart(t, m);
      FireIffBecomes(t, m, b, Fire(t, m, b));
      assert MayStep(net, m, i, b, Fire(t, m, b));
    }
  }
}
