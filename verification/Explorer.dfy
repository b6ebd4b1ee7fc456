/** The capped breadth-first exploration of a net. */
module Explorer {
  import opened OutputSpecs
  import opened PetriNets

  const MAX_STATES: nat := 20_000
  const MAX_TOKENS: int := 24

  predicate TooBig(m: Marking) {
    exists p :: 0 <= p < |m| && m[p] > MAX_TOKENS
  }

  ghost predicate Distinct(ms: seq<Marking>) {
    forall i, j :: 0 <= i < j < |ms| ==> ms[i] != ms[j]
  }

  ghost predicate AllReachable(net: Net, ms: seq<Marking>)
    requires WellFormed(net)
  {
    forall i :: 0 <= i < |ms| ==> Reachable(net, ms[i])
  }

  /** A reachable marking the exploration has turned away for good. */
  ghost predicate Cut(net: Net, states: seq<Marking>, w: Marking)
    requires WellFormed(net)
  {
    Reachable(net, w) && w !in states && (TooBig(w) || |states| >= MAX_STATES)
  }

  ghost predicate SomeCut(net: Net, states: seq<Marking>)
    requires WellFormed(net)
  {
    exists w :: Cut(net, states, w)
  }

  /** Nothing cut so far becomes listed later. */
  lemma CutStays(net: Net, states: seq<Marking>, m: Marking)
    requires WellFormed(net) && SomeCut(net, states)
    requires !TooBig(m) && |states| < MAX_STATES
    ensures SomeCut(net, states + [m])
  {
    var w :| Cut(net, states, w);
    assert Cut(net, states + [m], w);
  }

  ghost predicate Expanded(net: Net, states: seq<Marking>, k: int)
    requires WellFormed(net)
  {
    forall i, m' :: 0 <= i < k <= |states| && Step(net, states[i], m') ==> m' in states
  }

  /** A list that contains the initial marking and every successor of its members is complete. */
  lemma ClosedListIsComplete(net: Net, states: seq<Marking>, m: Marking)
    requires WellFormed(net) && net.initial in states && Expanded(net, states, |states|)
    requires Reachable(net, m)
    ensures m in states
  {
    Invariant(net, x => x in states, m);
  }

  /** What `explore` knows: `queue` is what is left of `states` to expand. */
  ghost predicate Exploring(net: Net, states: seq<Marking>, expanded: nat, complete: bool)
    requires WellFormed(net)
  {
    && expanded <= |states|
    && states != [] && states[0] == net.initial
    && Distinct(states) && AllReachable(net, states)
    && |states| <= MAX_STATES
    && (forall i :: 0 < i < |states| ==> !TooBig(states[i]))
    && (if complete then Expanded(net, states, expanded) else SomeCut(net, states))
  }

  /** Listing one more reachable marking within the caps. */
  lemma ListOne(net: Net, states: seq<Marking>, expanded: nat, complete: bool, m: Marking)
    requires WellFormed(net) && Exploring(net, states, expanded, complete)
    requires Reachable(net, m) && m !in states && !TooBig(m) && |states| < MAX_STATES
    ensures Exploring(net, states + [m], expanded, complete)
  {
    if !complete {
      CutStays(net, states, m);
    } else {
      forall i, m' | 0 <= i < expanded && Step(net, (states + [m])[i], m')
        ensures m' in states + [m]
      {
        assert (states + [m])[i] == states[i];
      }
    }
  }

  /** Turning one reachable marking away. */
  lemma CutOne(net: Net, states: seq<Marking>, expanded: nat, complete: bool, m: Marking)
    requires WellFormed(net) && Exploring(net, states, expanded, complete)
    requires Reachable(net, m) && m !in states && (TooBig(m) || |states| >= MAX_STATES)
    ensures Exploring(net, states, expanded, false)
  {
    assert Cut(net, states, m);
  }

  /** With all its successors listed, or some cut, one more marking is expanded. */
  lemma ExpandOne(net: Net, states: seq<Marking>, expanded: nat, complete: bool, next: seq<(string, Marking)>)
    requires WellFormed(net) && Exploring(net, states, expanded, complete) && expanded < |states|
    requires complete ==> Listed(next, |next|, states)
    requires forall m' :: Step(net, states[expanded], m') ==> exists s :: s in next && s.1 == m'
    ensures Exploring(net, states, expanded + 1, complete)
  {
    if complete {
      forall m' | Step(net, states[expanded], m')
        ensures m' in states
      {
        var s :| s in next && s.1 == m';
      }
    }
  }

  /** The first `k` successors are listed. */
  ghost predicate Listed(next: seq<(string, Marking)>, k: nat, states: seq<Marking>) {
    forall i :: 0 <= i < k <= |next| ==> next[i].1 in states
  }

  /** Lists the successors `next` of a marking that are not listed yet, as far as the caps allow. */
  method Expand(net: Net, next: seq<(string, Marking)>, states: seq<Marking>, complete: bool, ghost expanded: nat)
    returns (states': seq<Marking>, found: seq<Marking>, complete': bool)
    requires WellFormed(net) && Exploring(net, states, expanded, complete) && expanded < |states|
    requires forall i :: 0 <= i < |next| ==> Reachable(net, next[i].1)
    requires forall m' :: Step(net, states[expanded], m') ==> exists s :: s in next && s.1 == m'
    ensures states' == states + found && Exploring(net, states', expanded + 1, complete')
  {
    states', found, complete' := states, [], complete;
    for i := 0 to |next|
      invariant states' == states + found && Exploring(net, states', expanded, complete')
      invariant complete' ==> Listed(next, i, states')
    {
      var m' := next[i].1;
      if m' in states' {
        continue;
      }
      if TooBig(m') || |states'| >= MAX_STATES {
        CutOne(net, states', expanded, complete', m');
        complete' := false;
        continue;
      }
      ListOne(net, states', expanded, complete', m');
      states', found := states' + [m'], found + [m'];
    }
    ExpandOne(net, states', expanded, complete', next);
  }

  /** The successors of a reachable marking are reachable, and they are all it steps to. */
  lemma SuccessorsCover(net: Net, m: Marking, next: seq<(string, Marking)>)
    requires WellFormed(net) && Reachable(net, m) && |m| == net.places
    requires AllInside(net.transitions, |m|) && next == AllFirings(net.transitions, m)
    ensures forall i :: 0 <= i < |next| ==> Reachable(net, next[i].1)
    ensures forall m' :: Step(net, m, m') ==> exists s :: s in next && s.1 == m'
  {
    forall i | 0 <= i < |next|
      ensures Reachable(net, next[i].1)
    {
      InAllFirings(net.transitions, m, next[i]);
      var k: nat, j: nat :| FiresAs(net.transitions, m, k, j, next[i]);
      assert Leads(net, m, k, j, next[i].1);
      StepReachable(net, m, next[i].1);
    }
    forall m' | Step(net, m, m')
      ensures exists s :: s in next && s.1 == m'
    {
      var i: nat, j: nat :| Leads(net, m, i, j, m');
      var s := (net.transitions[i].name, m');
      assert FiresAs(net.transitions, m, i, j, s);
      InAllFirings(net.transitions, m, s);
    }
  }

  /** `successors` of a reachable marking: reachable, and everything it steps to. */
  method NextOf(net: Net, m: Marking) returns (next: seq<(string, Marking)>)
    requires WellFormed(net) && Reachable(net, m)
    ensures forall i :: 0 <= i < |next| ==> Reachable(net, next[i].1)
    ensures forall m' :: Step(net, m, m') ==> exists s :: s in next && s.1 == m'
  {
    ReachableSize(net, m);
    next := Successors(net, m);
    SuccessorsCover(net, m, next);
  }

  /**
   `explore`: breadth-first, turning away markings beyond the caps. Every listed marking is
   reachable and listed once, and the flag says exactly whether the list is everything.
   */
  method Explore(net: Net) returns (states: seq<Marking>, complete: bool)
    requires WellFormed(net)
    ensures states != [] && states[0] == net.initial && Distinct(states) && |states| <= MAX_STATES
    ensures forall m :: m in states ==> Reachable(net, m)
    ensures forall m, p :: m in states && m != net.initial && 0 <= p < |m| ==> m[p] <= MAX_TOKENS
    ensures complete <==> forall m :: Reachable(net, m) ==> m in states
    ensures !complete ==> SomeCut(net, states)
  {
    InitialReachable(net);
    states, complete := [net.initial], true;
    var queue := [net.initial];
    while queue != []
      invariant |queue| <= |states| && queue == states[|states| - |queue|..]
      invariant Exploring(net, states, |states| - |queue|, complete)
      decreases MAX_STATES - |states|, |queue|
    {
      var m := queue[0];
      var next := NextOf(net, m);
      var found;
      states, found, complete := Expand(net, next, states, complete, |states| - |queue|);
      queue := queue[1..] + found;
    }
    if complete {
      forall m | Reachable(net, m)
        ensures m in states
      {
        ClosedListIsComplete(net, states, m);
      }
    }
  }
}
