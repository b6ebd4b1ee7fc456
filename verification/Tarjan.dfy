/**
 Strongly connected components by Tarjan's algorithm with an explicit work stack.

 The invariant is stated over a snapshot of the search (`State`); one lemma per kind of step
 shows that the step keeps it. `Search` is the imperative program.
 */
module Tarjan {
  import opened Graphs
  import opened Order

  /** A suspended visit: its node and the successors its iterator has still to yield. */
  datatype Frame = Frame(node: Node, rest: seq<Node>)

  datatype State = State(
    index: map<Node, int>, low: map<Node, int>, on: set<Node>, stack: seq<Node>,
    comp: map<Node, Node>, counter: int, work: seq<Frame>)

  /** The number recorded for `u`, or -1. */
  ghost function At(m: map<Node, int>, u: Node): int {
    if u in m then m[u] else -1
  }

  /** `r` is the least node of the component of `u`. */
  ghost predicate IsRepresentative(g: Graph, u: Node, r: Node) {
    Mutual(g, u, r) && forall v :: Mutual(g, u, v) ==> r <= v
  }

  lemma SameRepresentative(g: Graph, u: Node, v: Node, r: Node)
    requires IsRepresentative(g, u, r) && Mutual(g, u, v)
    ensures IsRepresentative(g, v, r)
  {
    ReachTrans(g, v, u, r);
    ReachTrans(g, r, u, v);
    forall x | Mutual(g, v, x)
      ensures r <= x
    {
      ReachTrans(g, u, v, x);
      ReachTrans(g, x, v, u);
      assert Mutual(g, u, x);
    }
  }

  // ----- the invariant ---------------------------------------------------------------

  ghost predicate Indices(g: Graph, s: State) {
    && s.index.Keys == s.low.Keys
    && s.index.Keys <= g.Keys
    && (forall v :: v in s.index ==> At(s.index, v) < s.counter)
  }

  /** The nodes without a component are on the stack, in the order they were visited. */
  ghost predicate Stacked(s: State) {
    && (forall v :: v in s.on <==> v in s.stack)
    && (forall i, j :: 0 <= i < j < |s.stack| ==> At(s.index, s.stack[i]) < At(s.index, s.stack[j]))
  }

  ghost predicate Pending(s: State) {
    s.on <= s.index.Keys && s.comp.Keys == s.index.Keys - s.on
  }

  ghost predicate Suspended(g: Graph, s: State) {
    && (forall i :: 0 <= i < |s.work| ==> s.work[i].node in s.on)
    && (forall i, j :: 0 <= i < j < |s.work| ==> At(s.index, s.work[i].node) < At(s.index, s.work[j].node))
    && (forall i, w :: 0 <= i < |s.work| && w in s.work[i].rest ==> w in Succ(g, s.work[i].node))
  }

  /** The edge from `u` to `w` has not been looked at yet. */
  ghost predicate Waiting(s: State, u: Node, w: Node) {
    exists i :: 0 <= i < |s.work| && s.work[i].node == u && w in s.work[i].rest
  }

  ghost predicate SuccessorsSeen(g: Graph, s: State) {
    forall u, w {:trigger Waiting(s, u, w)} :: u in s.index && w in Succ(g, u) && !Waiting(s, u, w) ==> w in s.index
  }

  ghost predicate ComponentsDone(g: Graph, s: State) {
    && (forall u, w :: u in s.comp && w in Succ(g, u) ==> w in s.comp)
    && (forall u :: u in s.comp ==> IsRepresentative(g, u, s.comp[u]))
  }

  /** A suspended node reaches every stacked node visited after it. */
  ghost predicate ReachesLater(g: Graph, s: State) {
    forall i, u :: 0 <= i < |s.work| && u in s.on && At(s.index, s.work[i].node) <= At(s.index, u) ==>
      Reach(g, s.work[i].node, u)
  }

  /** The suspended node at `i` was visited no later than `u` and is reached from it. */
  ghost predicate Anchor(g: Graph, s: State, u: Node, i: nat) {
    i < |s.work| && At(s.index, s.work[i].node) <= At(s.index, u) && Reach(g, u, s.work[i].node)
  }

  ghost predicate HasAnchor(g: Graph, s: State, u: Node) {
    exists i: nat :: Anchor(g, s, u, i)
  }

  ghost predicate Anchored(g: Graph, s: State) {
    forall u {:trigger HasAnchor(g, s, u)} :: u in s.on ==> HasAnchor(g, s, u)
  }

  /** `x` is a stacked node reached from `u` whose index is the low link of `u`. */
  ghost predicate LowWitness(g: Graph, s: State, u: Node, x: Node) {
    x in s.on && At(s.index, x) == At(s.low, u) && Reach(g, u, x)
  }

  ghost predicate HasLow(g: Graph, s: State, u: Node) {
    At(s.low, u) <= At(s.index, u) && exists x :: LowWitness(g, s, u, x)
  }

  ghost predicate LowReached(g: Graph, s: State) {
    forall i {:trigger HasLow(g, s, s.work[i].node)} :: 0 <= i < |s.work| ==> HasLow(g, s, s.work[i].node)
  }

  /** `u` is stacked and was visited from the suspended node at `i`, and from no later one. */
  ghost predicate InSegment(s: State, i: nat, u: Node) {
    && i < |s.work|
    && u in s.on
    && At(s.index, s.work[i].node) <= At(s.index, u)
    && (i + 1 < |s.work| ==> At(s.index, u) < At(s.index, s.work[i + 1].node))
  }

  /** The edge from `u` to `b` stays on the stack and has been looked at. */
  ghost predicate Inspected(g: Graph, s: State, u: Node, b: Node) {
    b in s.on && b in Succ(g, u) && !Waiting(s, u, b)
  }

  /** No inspected edge out of a segment leads below the low link of the segment's node. */
  ghost predicate LowBounds(g: Graph, s: State) {
    forall i: nat, u, b {:trigger InSegment(s, i, u), Inspected(g, s, u, b)} ::
      InSegment(s, i, u) && Inspected(g, s, u, b) ==> At(s.low, s.work[i].node) <= At(s.index, b)
  }

  ghost predicate Inv(g: Graph, s: State) {
    && Indices(g, s)
    && Stacked(s)
    && Pending(s)
    && Suspended(g, s)
    && SuccessorsSeen(g, s)
    && ComponentsDone(g, s)
    && ReachesLater(g, s)
    && Anchored(g, s)
    && LowReached(g, s)
    && LowBounds(g, s)
  }

  // ----- visiting a new node ---------------------------------------------------------

  ghost function Entered(g: Graph, s: State, w: Node): State {
    State(s.index[w := s.counter], s.low[w := s.counter], s.on + {w}, s.stack + [w],
          s.comp, s.counter + 1, s.work + [Frame(w, Sorted(Succ(g, w)))])
  }

  lemma WaitingEntered(g: Graph, s: State, w: Node, u: Node, x: Node)
    ensures Waiting(s, u, x) ==> Waiting(Entered(g, s, w), u, x)
    ensures u == w && x in Succ(g, w) ==> Waiting(Entered(g, s, w), u, x)
  {
    var t := Entered(g, s, w);
    if Waiting(s, u, x) {
      var i :| 0 <= i < |s.work| && s.work[i].node == u && x in s.work[i].rest;
      assert t.work[i] == s.work[i];
    }
    assert t.work[|s.work|] == Frame(w, Sorted(Succ(g, w)));
  }

  lemma EnterShape(g: Graph, s: State, w: Node)
    requires Indices(g, s) && Stacked(s) && Pending(s) && w in g && w !in s.index
    ensures Indices(g, Entered(g, s, w)) && Stacked(Entered(g, s, w)) && Pending(Entered(g, s, w))
  {
  }

  lemma EnterSuspended(g: Graph, s: State, w: Node)
    requires Indices(g, s) && Pending(s) && Suspended(g, s) && w !in s.index
    ensures Suspended(g, Entered(g, s, w))
  {
  }

  lemma EnterReaches(g: Graph, s: State, w: Node)
    requires Indices(g, s) && Pending(s) && Suspended(g, s) && w !in s.index
    requires ReachesLater(g, s) && forall i :: 0 <= i < |s.work| ==> Reach(g, s.work[i].node, w)
    ensures ReachesLater(g, Entered(g, s, w))
  {
    ReachRefl(g, w);
  }

  lemma EnterAnchors(g: Graph, s: State, w: Node)
    requires Pending(s) && (forall i :: 0 <= i < |s.work| ==> s.work[i].node in s.on) && w !in s.index
    requires Anchored(g, s)
    ensures Anchored(g, Entered(g, s, w))
  {
    var t := Entered(g, s, w);
    ReachRefl(g, w);
    assert Anchor(g, t, w, |s.work|);
    forall u | u in t.on && u != w
      ensures HasAnchor(g, t, u)
    {
      assert HasAnchor(g, s, u);
      var i: nat :| Anchor(g, s, u, i);
      assert Anchor(g, t, u, i);
    }
  }

  lemma EnterLinks(g: Graph, s: State, w: Node)
    requires Pending(s) && (forall i :: 0 <= i < |s.work| ==> s.work[i].node in s.on) && w !in s.index
    requires LowReached(g, s)
    ensures LowReached(g, Entered(g, s, w))
  {
    var t := Entered(g, s, w);
    ReachRefl(g, w);
    assert LowWitness(g, t, w, w);
    forall i | 0 <= i < |s.work|
      ensures HasLow(g, t, t.work[i].node)
    {
      var u := s.work[i].node;
      assert HasLow(g, s, u);
      var x :| LowWitness(g, s, u, x);
      assert LowWitness(g, t, u, x);
    }
  }

  lemma EnterBounds(g: Graph, s: State, w: Node)
    requires Indices(g, s) && Pending(s) && Suspended(g, s) && w !in s.index
    requires LowReached(g, s) && LowBounds(g, s)
    ensures LowBounds(g, Entered(g, s, w))
  {
    var t := Entered(g, s, w);
    forall i: nat, u, b | InSegment(t, i, u) && Inspected(g, t, u, b)
      ensures At(t.low, t.work[i].node) <= At(t.index, b)
    {
      WaitingEntered(g, s, w, u, b);
      if i < |s.work| {
        assert HasLow(g, s, s.work[i].node);
        if b != w {
          assert InSegment(s, i, u) && Inspected(g, s, u, b);
        }
      }
    }
  }

  /** `SuccessorsSeen`, except that `w` itself may be unvisited. */
  ghost predicate SeenBut(g: Graph, s: State, w: Node) {
    forall u, x {:trigger Waiting(s, u, x)} ::
      u in s.index && x in Succ(g, u) && !Waiting(s, u, x) ==> x in s.index || x == w
  }

  lemma EnterSeen(g: Graph, s: State, w: Node)
    requires SeenBut(g, s, w)
    ensures SuccessorsSeen(g, Entered(g, s, w))
  {
    var t := Entered(g, s, w);
    forall u, x | u in t.index && x in Succ(g, u) && !Waiting(t, u, x)
      ensures x in t.index
    {
      WaitingEntered(g, s, w, u, x);
    }
  }

  /** Everything the invariant says, except that `w` may be an unvisited successor. */
  ghost predicate InvBut(g: Graph, s: State, w: Node) {
    && Indices(g, s)
    && Stacked(s)
    && Pending(s)
    && Suspended(g, s)
    && SeenBut(g, s, w)
    && ComponentsDone(g, s)
    && ReachesLater(g, s)
    && Anchored(g, s)
    && LowReached(g, s)
    && LowBounds(g, s)
  }

  /** Visiting a new node that every suspended node reaches keeps the invariant. */
  lemma Enter(g: Graph, s: State, w: Node)
    requires InvBut(g, s, w) && w in g && w !in s.index
    requires forall i :: 0 <= i < |s.work| ==> Reach(g, s.work[i].node, w)
    ensures Inv(g, Entered(g, s, w))
  {
    EnterShape(g, s, w);
    EnterSuspended(g, s, w);
    EnterSeen(g, s, w);
    EnterReaches(g, s, w);
    EnterAnchors(g, s, w);
    EnterLinks(g, s, w);
    EnterBounds(g, s, w);
  }

  // ----- the top iterator yields a successor -----------------------------------------

  ghost predicate CanYield(s: State) {
    s.work != [] && s.work[|s.work| - 1].rest != []
  }

  ghost function Top(s: State): Node
    requires s.work != []
  {
    s.work[|s.work| - 1].node
  }

  ghost function Next(s: State): Node
    requires CanYield(s)
  {
    s.work[|s.work| - 1].rest[0]
  }

  ghost function Yielded(s: State): State
    requires CanYield(s)
  {
    s.(work := s.work[|s.work| - 1 := Frame(Top(s), s.work[|s.work| - 1].rest[1..])])
  }

  lemma WaitingYielded(s: State, u: Node, w: Node)
    requires CanYield(s) && Waiting(s, u, w)
    ensures Waiting(Yielded(s), u, w) || (u == Top(s) && w == Next(s))
  {
    var t := Yielded(s);
    var i :| 0 <= i < |s.work| && s.work[i].node == u && w in s.work[i].rest;
    if i < |s.work| - 1 || w != s.work[i].rest[0] {
      assert t.work[i].node == u && w in t.work[i].rest;
    }
  }

  lemma YieldShape(g: Graph, s: State)
    requires CanYield(s) && Suspended(g, s) && ReachesLater(g, s)
    ensures Suspended(g, Yielded(s)) && ReachesLater(g, Yielded(s))
  {
    var t := Yielded(s);
    assert forall i :: 0 <= i < |t.work| ==> t.work[i].node == s.work[i].node;
  }

  lemma YieldAnchors(g: Graph, s: State)
    requires CanYield(s) && Anchored(g, s)
    ensures Anchored(g, Yielded(s))
  {
    var t := Yielded(s);
    forall u | u in t.on
      ensures HasAnchor(g, t, u)
    {
      assert HasAnchor(g, s, u);
      var i: nat :| Anchor(g, s, u, i);
      assert t.work[i].node == s.work[i].node;
      assert Anchor(g, t, u, i);
    }
  }

  lemma YieldLinks(g: Graph, s: State)
    requires CanYield(s) && LowReached(g, s)
    ensures LowReached(g, Yielded(s))
  {
    var t := Yielded(s);
    forall i | 0 <= i < |t.work|
      ensures HasLow(g, t, t.work[i].node)
    {
      assert HasLow(g, s, s.work[i].node);
      assert t.work[i].node == s.work[i].node;
      var x :| LowWitness(g, s, s.work[i].node, x);
      assert LowWitness(g, t, s.work[i].node, x);
    }
  }

  /** `LowBounds`, leaving the edge from `v` to `w` out. */
  ghost predicate LowBoundsBut(g: Graph, s: State, v: Node, w: Node) {
    forall i: nat, u, b {:trigger InSegment(s, i, u), Inspected(g, s, u, b)} ::
      InSegment(s, i, u) && Inspected(g, s, u, b) && !(u == v && b == w) ==>
      At(s.low, s.work[i].node) <= At(s.index, b)
  }

  lemma YieldBounds(g: Graph, s: State)
    requires CanYield(s) && LowBounds(g, s)
    ensures LowBoundsBut(g, Yielded(s), Top(s), Next(s))
  {
    var t := Yielded(s);
    forall i: nat, u, b | InSegment(t, i, u) && Inspected(g, t, u, b) && !(u == Top(s) && b == Next(s))
      ensures At(t.low, t.work[i].node) <= At(t.index, b)
    {
      assert t.work[i].node == s.work[i].node;
      assert i + 1 < |s.work| ==> t.work[i + 1].node == s.work[i + 1].node;
      assert InSegment(s, i, u);
      if Waiting(s, u, b) {
        WaitingYielded(s, u, b);
      }
      assert Inspected(g, s, u, b);
    }
  }

  lemma YieldSeen(g: Graph, s: State)
    requires CanYield(s) && SuccessorsSeen(g, s)
    ensures SeenBut(g, Yielded(s), Next(s))
  {
    forall u, x | u in s.index && x in Succ(g, u) && !Waiting(Yielded(s), u, x)
      ensures x in s.index || x == Next(s)
    {
      if Waiting(s, u, x) {
        WaitingYielded(s, u, x);
      }
    }
  }

  /** Moving the top iterator past a node that is not stacked leaves only that node unaccounted for. */
  lemma Yield(g: Graph, s: State)
    requires Inv(g, s) && CanYield(s) && Next(s) !in s.on
    ensures InvBut(g, Yielded(s), Next(s))
  {
    YieldShape(g, s);
    YieldAnchors(g, s);
    YieldLinks(g, s);
    YieldBounds(g, s);
    YieldSeen(g, s);
  }

  /** The yielded successor is stacked: the node's low link is lowered to its index. */
  ghost function Lowered(s: State): State
    requires CanYield(s)
  {
    Relinked(Yielded(s), Top(s), At(s.index, Next(s)))
  }

  /** `low[v] = min(low[v], n)` */
  ghost function Relinked(s: State, v: Node, n: int): State {
    s.(low := s.low[v := if n < At(s.low, v) then n else At(s.low, v)])
  }

  lemma RelinkAnchors(g: Graph, s: State, v: Node, n: int)
    requires Anchored(g, s)
    ensures Anchored(g, Relinked(s, v, n))
  {
    var t := Relinked(s, v, n);
    forall u | u in t.on
      ensures HasAnchor(g, t, u)
    {
      assert HasAnchor(g, s, u);
      var i: nat :| Anchor(g, s, u, i);
      assert Anchor(g, t, u, i);
    }
  }

  /** Low links stay witnessed when one is lowered to the index of a stacked node it reaches. */
  lemma RelinkLinks(g: Graph, s: State, v: Node, w: Node)
    requires LowReached(g, s) && w in s.on && Reach(g, v, w)
    ensures LowReached(g, Relinked(s, v, At(s.index, w)))
  {
    var t := Relinked(s, v, At(s.index, w));
    forall i | 0 <= i < |t.work|
      ensures HasLow(g, t, t.work[i].node)
    {
      var u := s.work[i].node;
      assert HasLow(g, s, u);
      var x :| LowWitness(g, s, u, x);
      assert u != v || At(s.index, w) >= At(s.low, v) ==> LowWitness(g, t, u, x);
      assert u == v && At(s.index, w) < At(s.low, v) ==> LowWitness(g, t, u, w);
    }
  }

  lemma LowerBounds(g: Graph, s: State)
    requires CanYield(s) && LowBoundsBut(g, Yielded(s), Top(s), Next(s))
    requires Suspended(g, s)
    ensures LowBounds(g, Lowered(s))
  {
    var t, y := Lowered(s), Yielded(s);
    forall i: nat, u, b | InSegment(t, i, u) && Inspected(g, t, u, b)
      ensures At(t.low, t.work[i].node) <= At(t.index, b)
    {
      assert InSegment(y, i, u);
      assert Waiting(y, u, b) ==> Waiting(t, u, b);
      assert Inspected(g, y, u, b);
      if u == Top(s) && b == Next(s) {
        OwnSegment(g, s, i);
      }
    }
  }

  /** The top node lies in the top segment only. */
  lemma OwnSegment(g: Graph, s: State, i: nat)
    requires CanYield(s) && Suspended(g, s) && InSegment(Lowered(s), i, Top(s))
    ensures i == |s.work| - 1
  {
    assert Lowered(s).work[|s.work| - 1].node == Top(s);
  }

  lemma LowerSeen(g: Graph, s: State)
    requires CanYield(s) && SuccessorsSeen(g, s) && Next(s) in s.index
    ensures SuccessorsSeen(g, Lowered(s))
  {
    var t := Lowered(s);
    forall u, x | u in t.index && x in Succ(g, u) && !Waiting(t, u, x)
      ensures x in t.index
    {
      if Waiting(s, u, x) {
        WaitingYielded(s, u, x);
        assert Waiting(Yielded(s), u, x) ==> Waiting(t, u, x);
      }
    }
  }

  /** Taking the index of a stacked successor into the low link keeps the invariant. */
  lemma Lower(g: Graph, s: State)
    requires Inv(g, s) && CanYield(s) && Next(s) in s.on
    ensures Inv(g, Lowered(s))
  {
    ReachEdge(g, Top(s), Next(s));
    YieldShape(g, s);
    YieldAnchors(g, s);
    RelinkAnchors(g, Yielded(s), Top(s), At(s.index, Next(s)));
    YieldLinks(g, s);
    RelinkLinks(g, Yielded(s), Top(s), Next(s));
    YieldBounds(g, s);
    LowerBounds(g, s);
    LowerSeen(g, s);
  }

  // ----- leaving a node --------------------------------------------------------------

  ghost predicate Exhausted(s: State) {
    s.work != [] && s.work[|s.work| - 1].rest == []
  }

  ghost function Popped(s: State): State
    requires s.work != []
  {
    s.(work := s.work[..|s.work| - 1])
  }

  /** The top visit is over: its low link is passed on to the visit below, if there is one. */
  ghost function Returned(s: State): State
    requires s.work != []
  {
    var p := Popped(s);
    if p.work == [] then p else Relinked(p, Top(p), At(s.low, Top(s)))
  }

  lemma WaitingReturned(s: State, u: Node, x: Node)
    requires Exhausted(s)
    ensures Waiting(Returned(s), u, x) <==> Waiting(s, u, x)
  {
    var t := Returned(s);
    if Waiting(s, u, x) {
      var i :| 0 <= i < |s.work| && s.work[i].node == u && x in s.work[i].rest;
      assert t.work[i] == s.work[i];
    }
    if Waiting(t, u, x) {
      var i :| 0 <= i < |t.work| && t.work[i].node == u && x in t.work[i].rest;
      assert t.work[i] == s.work[i];
    }
  }

  lemma ReturnShape(g: Graph, s: State)
    requires Exhausted(s) && Suspended(g, s) && ReachesLater(g, s)
    ensures Suspended(g, Returned(s)) && ReachesLater(g, Returned(s))
  {
    var t := Returned(s);
    assert forall i :: 0 <= i < |t.work| ==> t.work[i] == s.work[i];
  }

  lemma ReturnIndices(g: Graph, s: State)
    requires Exhausted(s) && Suspended(g, s) && Indices(g, s) && Pending(s)
    ensures Indices(g, Returned(s))
  {
    if |s.work| > 1 {
      assert s.work[|s.work| - 2].node in s.on;
    }
  }

  lemma ReturnSeen(g: Graph, s: State)
    requires Exhausted(s) && SuccessorsSeen(g, s)
    ensures SuccessorsSeen(g, Returned(s))
  {
    forall u, x | u in s.index && x in Succ(g, u) && !Waiting(Returned(s), u, x)
      ensures x in s.index
    {
      WaitingReturned(s, u, x);
    }
  }

  lemma PopLinks(g: Graph, s: State)
    requires s.work != [] && LowReached(g, s)
    ensures LowReached(g, Popped(s))
  {
    var t := Popped(s);
    forall i | 0 <= i < |t.work|
      ensures HasLow(g, t, t.work[i].node)
    {
      var u := s.work[i].node;
      assert HasLow(g, s, u);
      var x :| LowWitness(g, s, u, x);
      assert LowWitness(g, t, u, x);
    }
  }

  lemma ReturnLinks(g: Graph, s: State)
    requires Exhausted(s) && Suspended(g, s) && ReachesLater(g, s) && LowReached(g, s)
    ensures LowReached(g, Returned(s))
  {
    PopLinks(g, s);
    var p := Popped(s);
    if p.work != [] {
      assert p.work[|p.work| - 1] == s.work[|s.work| - 2];
      assert HasLow(g, s, s.work[|s.work| - 1].node);
      var x :| LowWitness(g, s, Top(s), x);
      assert Top(s) in s.on;
      ReachTrans(g, Top(p), Top(s), x);
      RelinkLinks(g, p, Top(p), x);
    }
  }

  lemma ReturnBounds(g: Graph, s: State)
    requires Exhausted(s) && Suspended(g, s) && LowBounds(g, s)
    ensures LowBounds(g, Returned(s))
  {
    var t, k := Returned(s), |s.work| - 1;
    forall i: nat, u, b | InSegment(t, i, u) && Inspected(g, t, u, b)
      ensures At(t.low, t.work[i].node) <= At(t.index, b)
    {
      WaitingReturned(s, u, b);
      assert Inspected(g, s, u, b);
      assert t.work[i] == s.work[i];
      assert i + 1 < k ==> t.work[i + 1] == s.work[i + 1];
      if i == k - 1 && At(s.index, Top(s)) <= At(s.index, u) {
        assert InSegment(s, k, u);
      } else {
        assert InSegment(s, i, u);
      }
    }
  }

  /** A node whose low link is below its index leads back to an earlier suspended node. */
  lemma LeadsBack(g: Graph, s: State) returns (j: nat)
    requires s.work != [] && Suspended(g, s) && Anchored(g, s) && LowReached(g, s)
    requires At(s.low, Top(s)) != At(s.index, Top(s))
    ensures j < |s.work| - 1 && Anchor(g, s, Top(s), j)
  {
    assert HasLow(g, s, s.work[|s.work| - 1].node);
    var x :| LowWitness(g, s, Top(s), x);
    assert HasAnchor(g, s, x);
    j :| Anchor(g, s, x, j);
    ReachTrans(g, Top(s), x, s.work[j].node);
  }

  lemma MergeAnchors(g: Graph, s: State)
    requires s.work != [] && Suspended(g, s) && Anchored(g, s) && LowReached(g, s)
    requires At(s.low, Top(s)) != At(s.index, Top(s))
    ensures Anchored(g, Returned(s))
  {
    var t := Returned(s);
    var j := LeadsBack(g, s);
    assert t.work[j] == s.work[j];
    forall u | u in t.on
      ensures HasAnchor(g, t, u)
    {
      assert HasAnchor(g, s, u);
      var i: nat :| Anchor(g, s, u, i);
      if i == |s.work| - 1 {
        ReachTrans(g, u, Top(s), s.work[j].node);
        assert Anchor(g, t, u, j);
      } else {
        assert t.work[i] == s.work[i];
        assert Anchor(g, t, u, i);
      }
    }
  }

  /** A node that is not the root of its component stays on the stack. */
  lemma Merge(g: Graph, s: State)
    requires Inv(g, s) && Exhausted(s) && At(s.low, Top(s)) != At(s.index, Top(s))
    ensures Inv(g, Returned(s))
  {
    ReturnShape(g, s);
    ReturnIndices(g, s);
    ReturnSeen(g, s);
    ReturnLinks(g, s);
    ReturnBounds(g, s);
    MergeAnchors(g, s);
  }

  // ----- emitting a component --------------------------------------------------------

  /** `members` are the nodes visited since the top node, whose low link is its own index. */
  ghost predicate RootOf(s: State, members: set<Node>)
    requires s.work != []
  {
    && At(s.low, Top(s)) == At(s.index, Top(s))
    && (forall v :: v in members ==> v in s.on && At(s.index, Top(s)) <= At(s.index, v))
    && (forall v :: v in s.on && v !in members ==> At(s.index, v) < At(s.index, Top(s)))
  }

  /** No edge leaves the nodes visited since a root, except to finished components. */
  lemma SegmentClosed(g: Graph, s: State, members: set<Node>, x: Node, y: Node)
    requires Exhausted(s) && Pending(s) && Suspended(g, s) && SuccessorsSeen(g, s) && LowBounds(g, s)
    requires RootOf(s, members) && x in members && y in Succ(g, x)
    ensures y in members || y in s.comp
  {
    assert !Waiting(s, x, y);
    if y in s.on {
      assert InSegment(s, |s.work| - 1, x) && Inspected(g, s, x, y);
    }
  }

  /** A node visited since a root belongs to the root's component. */
  lemma SegmentReachesRoot(g: Graph, s: State, members: set<Node>, v: Node)
    requires s.work != [] && Suspended(g, s) && Anchored(g, s) && ReachesLater(g, s)
    requires RootOf(s, members) && v in members
    ensures Mutual(g, Top(s), v)
  {
    assert HasAnchor(g, s, v);
    var i: nat :| Anchor(g, s, v, i);
    assert Top(s) in s.on;
    assert Reach(g, s.work[i].node, Top(s));
    ReachTrans(g, v, s.work[i].node, Top(s));
  }

  /** The nodes visited since a root are exactly the component of the root. */
  lemma SegmentIsComponent(g: Graph, s: State, members: set<Node>, v: Node)
    requires Inv(g, s) && Exhausted(s) && RootOf(s, members)
    ensures v in members <==> Mutual(g, Top(s), v)
  {
    if v in members {
      SegmentReachesRoot(g, s, members, v);
    }
    if Mutual(g, Top(s), v) {
      var region := members + s.comp.Keys;
      forall x, y | x in region && y in Succ(g, x)
        ensures y in region
      {
        if x in members {
          SegmentClosed(g, s, members, x, y);
        }
      }
      ReachStaysInside(g, region, Top(s), v);
      if v in s.comp {
        ReachStaysInside(g, s.comp.Keys, v, Top(s));
      }
    }
  }

  ghost function Assigned(comp: map<Node, Node>, members: set<Node>, rep: Node): map<Node, Node> {
    comp + map v | v in members :: rep
  }

  /** The root's component has been taken off the stack, down to `k`, and given its representative. */
  ghost function Emitted(s: State, k: nat, members: set<Node>, rep: Node): State
    requires s.work != [] && k <= |s.stack|
  {
    Returned(s).(on := s.on - members, stack := s.stack[..k], comp := Assigned(s.comp, members, rep))
  }

  lemma EmitStacked(g: Graph, s: State, k: nat, members: set<Node>, rep: Node)
    requires s.work != [] && Stacked(s) && RootOf(s, members) && k < |s.stack| && s.stack[k] == Top(s)
    ensures Stacked(Emitted(s, k, members, rep))
  {
    var t := Emitted(s, k, members, rep);
    forall v
      ensures v in t.on <==> v in t.stack
    {
      if v in s.on {
        var j :| 0 <= j < |s.stack| && s.stack[j] == v;
        if v in t.on {
          assert t.stack[j] == v;
        }
      }
    }
  }

  lemma EmitShape(g: Graph, s: State, k: nat, members: set<Node>, rep: Node)
    requires s.work != [] && Pending(s) && RootOf(s, members) && k <= |s.stack|
    requires Suspended(g, s) && Suspended(g, Returned(s))
    ensures Suspended(g, Emitted(s, k, members, rep)) && Pending(Emitted(s, k, members, rep))
  {
    var t := Emitted(s, k, members, rep);
    assert forall i :: 0 <= i < |t.work| ==> t.work[i].node == s.work[i].node;
  }

  lemma EmitComponents(g: Graph, s: State, k: nat, members: set<Node>, rep: Node)
    requires Inv(g, s) && Exhausted(s) && RootOf(s, members) && k <= |s.stack| && IsRepresentative(g, Top(s), rep)
    ensures ComponentsDone(g, Emitted(s, k, members, rep))
  {
    var t := Emitted(s, k, members, rep);
    forall u, w | u in t.comp && w in Succ(g, u)
      ensures w in t.comp
    {
      if u !in s.comp {
        SegmentClosed(g, s, members, u, w);
      }
    }
    forall u | u in t.comp
      ensures IsRepresentative(g, u, t.comp[u])
    {
      if u in members {
        SegmentReachesRoot(g, s, members, u);
        SameRepresentative(g, Top(s), u, rep);
      }
    }
  }

  lemma EmitAnchors(g: Graph, s: State, k: nat, members: set<Node>, rep: Node)
    requires s.work != [] && Anchored(g, s) && RootOf(s, members) && k <= |s.stack|
    ensures Anchored(g, Emitted(s, k, members, rep))
  {
    var t := Emitted(s, k, members, rep);
    forall u | u in t.on
      ensures HasAnchor(g, t, u)
    {
      assert HasAnchor(g, s, u);
      var i: nat :| Anchor(g, s, u, i);
      assert i < |s.work| - 1;
      assert t.work[i] == s.work[i];
      assert Anchor(g, t, u, i);
    }
  }

  lemma EmitLinks(g: Graph, s: State, k: nat, members: set<Node>, rep: Node)
    requires s.work != [] && Suspended(g, s) && LowReached(g, Returned(s)) && RootOf(s, members) && k <= |s.stack|
    ensures LowReached(g, Emitted(s, k, members, rep))
  {
    var t, r := Emitted(s, k, members, rep), Returned(s);
    forall i | 0 <= i < |t.work|
      ensures HasLow(g, t, t.work[i].node)
    {
      var u := r.work[i].node;
      assert s.work[i].node == u;
      assert HasLow(g, r, u);
      var x :| LowWitness(g, r, u, x);
      assert LowWitness(g, t, u, x);
    }
  }

  lemma EmitBounds(g: Graph, s: State, k: nat, members: set<Node>, rep: Node)
    requires s.work != [] && LowBounds(g, Returned(s)) && k <= |s.stack|
    ensures LowBounds(g, Emitted(s, k, members, rep))
  {
    var t, r := Emitted(s, k, members, rep), Returned(s);
    forall i: nat, u, b | InSegment(t, i, u) && Inspected(g, t, u, b)
      ensures At(t.low, t.work[i].node) <= At(t.index, b)
    {
      assert InSegment(r, i, u);
      assert Waiting(r, u, b) ==> Waiting(t, u, b);
      assert Inspected(g, r, u, b);
    }
  }

  lemma EmitSeen(g: Graph, s: State, k: nat, members: set<Node>, rep: Node)
    requires s.work != [] && SuccessorsSeen(g, Returned(s)) && k <= |s.stack|
    ensures SuccessorsSeen(g, Emitted(s, k, members, rep))
  {
    var t := Emitted(s, k, members, rep);
    forall u, x | u in t.index && x in Succ(g, u) && !Waiting(t, u, x)
      ensures x in t.index
    {
      assert Waiting(Returned(s), u, x) ==> Waiting(t, u, x);
    }
  }

  /** Taking a finished component off the stack keeps the invariant. */
  lemma Emit(g: Graph, s: State, k: nat, members: set<Node>, rep: Node)
    requires Inv(g, s) && Exhausted(s) && RootOf(s, members) && k < |s.stack| && s.stack[k] == Top(s)
    requires IsRepresentative(g, Top(s), rep)
    ensures Inv(g, Emitted(s, k, members, rep))
  {
    ReturnShape(g, s);
    ReturnIndices(g, s);
    ReturnSeen(g, s);
    ReturnLinks(g, s);
    ReturnBounds(g, s);
    EmitStacked(g, s, k, members, rep);
    EmitShape(g, s, k, members, rep);
    EmitComponents(g, s, k, members, rep);
    EmitAnchors(g, s, k, members, rep);
    EmitLinks(g, s, k, members, rep);
    EmitBounds(g, s, k, members, rep);
    EmitSeen(g, s, k, members, rep);
  }

  // ----- the program -----------------------------------------------------------------

  /** The top node's low link is its index: the stack from its position on is its component. */
  lemma RootMembers(g: Graph, s: State, k: nat, members: set<Node>)
    requires Inv(g, s) && Exhausted(s) && At(s.low, Top(s)) == At(s.index, Top(s))
    requires k < |s.stack| && s.stack[k] == Top(s) && members == set v | v in s.stack[k..]
    ensures RootOf(s, members)
    ensures forall v :: v in members <==> Mutual(g, Top(s), v)
  {
    forall v | v in s.on
      ensures v in members <==> At(s.index, Top(s)) <= At(s.index, v)
    {
      var j :| 0 <= j < |s.stack| && s.stack[j] == v;
      if j >= k {
        assert s.stack[k..][j - k] == v;
      }
    }
    forall v
      ensures v in members <==> Mutual(g, Top(s), v)
    {
      SegmentIsComponent(g, s, members, v);
    }
  }

  lemma SuffixGrows(s: seq<Node>, n: nat)
    requires 0 < n <= |s|
    ensures forall v :: v in s[n - 1..] <==> v == s[n - 1] || v in s[n..]
  {
    assert s[n - 1..] == [s[n - 1]] + s[n..];
  }

  lemma InitialInv(g: Graph)
    ensures Inv(g, State(map[], map[], {}, [], map[], 0, []))
  {
  }

  class Search {
    const adj: Graph
    var index: map<Node, int>
    var low: map<Node, int>
    var on: set<Node>
    var stack: seq<Node>
    var comp: map<Node, Node>
    var counter: int

    constructor (adj: Graph)
      ensures this.adj == adj
      ensures Inv(adj, Snapshot([]))
    {
      this.adj := adj;
      index, low, on, stack, comp, counter := map[], map[], {}, [], map[], 0;
      InitialInv(adj);
    }

    ghost function Snapshot(work: seq<Frame>): State
      reads this
    {
      State(index, low, on, stack, comp, counter, work)
    }

    /** First sight of `w`: number it, stack it and start its visit. */
    method Start(w: Node, work: seq<Frame>) returns (work': seq<Frame>)
      requires w in adj
      modifies this
      ensures Snapshot(work') == Entered(adj, old(Snapshot(work)), w)
    {
      index := index[w := counter];
      low := low[w := counter];
      counter := counter + 1;
      stack := stack + [w];
      on := on + {w};
      work' := work + [Frame(w, Sorted(adj[w]))];
    }

    /** Takes the component of `node` off the stack and records its least member for each. */
    method PopComponent(node: Node, ghost k: nat, ghost component: set<Node>)
      requires k < |stack| && stack[k] == node
      requires forall i :: 0 <= i < |stack| && stack[i] == node ==> i == k
      requires component == set v | v in stack[k..]
      modifies `stack, `on, `comp
      ensures stack == old(stack)[..k] && on == old(on) - component
      ensures component != {} && comp == Assigned(old(comp), component, Min(component))
    {
      var members: seq<Node> := [];
      ghost var all := stack;
      while true
        invariant k < |stack| <= |all| && stack == all[..|stack|]
        invariant forall v :: v in members <==> v in all[|stack|..]
        invariant forall v :: v in on <==> v in old(on) && v !in members
        invariant comp == old(comp)
        decreases |stack|
      {
        var w := stack[|stack| - 1];
        SuffixGrows(all, |stack|);
        stack := stack[..|stack| - 1];
        on := on - {w};
        members := members + [w];
        if w == node {
          break;
        }
      }
      assert on == old(on) - component;
      RecordComponent(members, component);
    }

    /** Gives every member the least of them as its representative. */
    method RecordComponent(members: seq<Node>, ghost component: set<Node>)
      requires members != [] && forall v :: v in members <==> v in component
      modifies `comp
      ensures component != {} && comp == Assigned(old(comp), component, Min(component))
    {
      var all := set w | w in members;
      assert members[0] in all;
      var least := Min(all);
      for i := 0 to |members|
        invariant comp.Keys == old(comp.Keys) + set v | v in members[..i]
        invariant forall v :: v in comp ==> comp[v] == if v in members[..i] then least else old(comp)[v]
      {
        assert members[..i + 1] == members[..i] + [members[i]];
        comp := comp[members[i] := least];
      }
      assert members[..|members|] == members;
      assert component == all;
    }

    /** Visits everything `v` reaches; every node visited gets its component. */
    method Visit(v: Node)
      requires Closed(adj) && Inv(adj, Snapshot([])) && v in adj && v !in index
      modifies this
      ensures Inv(adj, Snapshot([]))
      ensures v in index && old(index.Keys) <= index.Keys
    {
      Enter(adj, Snapshot([]), v);
      var work := Start(v, []);
      while work != []
        invariant Inv(adj, Snapshot(work))
        invariant v in index && old(index.Keys) <= index.Keys
        decreases adj.Keys - index.Keys, |work|
      {
        var advanced;
        work, advanced := Advance(work);
        if advanced {
          continue;
        }
        Leave(work[|work| - 1].node, work);
        work := work[..|work| - 1];
      }
    }

    /** Runs the top iterator until it yields an unvisited node, which it enters, or ends. */
    method Advance(work: seq<Frame>) returns (work': seq<Frame>, advanced: bool)
      requires Closed(adj) && Inv(adj, Snapshot(work)) && work != []
      modifies this
      ensures Inv(adj, Snapshot(work'))
      ensures if advanced then old(index.Keys) < index.Keys <= adj.Keys
              else index == old(index) && |work'| == |work| && work'[|work'| - 1].rest == []
    {
      work', advanced := work, false;
      while work'[|work'| - 1].rest != []
        invariant Inv(adj, Snapshot(work'))
        invariant |work'| == |work| && index == old(index)
        decreases |work'[|work'| - 1].rest|
      {
        work', advanced := Follow(work');
        if advanced {
          return;
        }
      }
    }

    /** Takes the next successor of the top node: enters it, lowers the low link, or skips it. */
    method Follow(work: seq<Frame>) returns (work': seq<Frame>, advanced: bool)
      requires Closed(adj) && Inv(adj, Snapshot(work)) && work != [] && work[|work| - 1].rest != []
      modifies this
      ensures Inv(adj, Snapshot(work'))
      ensures if advanced then old(index.Keys) < index.Keys <= adj.Keys
              else index == old(index) && |work'| == |work| && |work'[|work'| - 1].rest| < |work[|work| - 1].rest|
    {
      ghost var s := Snapshot(work);
      var node, w := work[|work| - 1].node, work[|work| - 1].rest[0];
      SuspendedReach(adj, s);
      work' := work[|work| - 1 := Frame(node, work[|work| - 1].rest[1..])];
      advanced := w !in index;
      if advanced {
        Yield(adj, s);
        Enter(adj, Yielded(s), w);
        work' := Start(w, work');
      } else if w in on {
        Lower(adj, s);
        Link(node, index[w]);
      } else {
        Yield(adj, s);
      }
    }

    /** `low[v] = min(low[v], n)` */
    method Link(v: Node, n: int)
      requires v in low
      modifies `low
      ensures low == old(low)[v := if n < At(old(low), v) then n else At(old(low), v)]
    {
      low := low[v := if n < low[v] then n else low[v]];
    }

    /** Takes the low link of the top node into the one of the node below, if there is one. */
    method PassDown(work: seq<Frame>)
      requires work != [] && forall i :: 0 <= i < |work| ==> work[i].node in low
      modifies `low
      ensures Snapshot(work[..|work| - 1]) == Returned(old(Snapshot(work)))
    {
      if |work| > 1 {
        var node, parent := work[|work| - 1].node, work[|work| - 2].node;
        low := low[parent := if low[node] < low[parent] then low[node] else low[parent]];
      }
    }

    /** The end of a visit: pass the low link down and, at a root, emit the component. */
    method Leave(node: Node, work: seq<Frame>)
      requires Inv(adj, Snapshot(work)) && Exhausted(Snapshot(work)) && node == Top(Snapshot(work))
      modifies this
      ensures Inv(adj, Snapshot(work[..|work| - 1]))
      ensures index == old(index)
    {
      ghost var s := Snapshot(work);
      ShapeOfTop(adj, s);
      PassDown(work);
      if low[node] == index[node] {
        ghost var k, members := EmitTop(adj, s);
        PopComponent(node, k, members);
      } else {
        Merge(adj, s);
      }
    }
  }

  lemma ShapeOfTop(g: Graph, s: State)
    requires Indices(g, s) && Pending(s) && Suspended(g, s) && s.work != []
    ensures forall i :: 0 <= i < |s.work| ==> s.work[i].node in s.low && s.work[i].node in s.index
    ensures |s.work| > 1 ==> s.work[|s.work| - 2].node != Top(s)
  {
    assert forall i :: 0 <= i < |s.work| ==> s.work[i].node in s.on;
  }

  /** At a root the component starts at the root's only position on the stack. */
  lemma EmitTop(g: Graph, s: State) returns (k: nat, members: set<Node>)
    requires Inv(g, s) && Exhausted(s) && At(s.low, Top(s)) == At(s.index, Top(s))
    ensures k < |s.stack| && s.stack[k] == Top(s)
    ensures forall i :: 0 <= i < |s.stack| && s.stack[i] == Top(s) ==> i == k
    ensures members == (set u | u in s.stack[k..]) && members != {}
    ensures Inv(g, Emitted(s, k, members, Min(members)))
  {
    assert s.work[|s.work| - 1].node in s.on;
    k :| 0 <= k < |s.stack| && s.stack[k] == Top(s);
    members := set u | u in s.stack[k..];
    RootMembers(g, s, k, members);
    LeastOfComponent(g, Top(s), members);
    Emit(g, s, k, members, Min(members));
  }

  /** The least member of a component is its representative. */
  lemma LeastOfComponent(g: Graph, u: Node, members: set<Node>)
    requires forall v :: v in members <==> Mutual(g, u, v)
    ensures members != {} && IsRepresentative(g, u, Min(members))
  {
    ReachRefl(g, u);
    assert u in members;
    assert Min(members) in members;
  }

  /** Every suspended node reaches the next successor of the top one. */
  lemma SuspendedReach(g: Graph, s: State)
    requires CanYield(s) && Suspended(g, s) && ReachesLater(g, s)
    ensures forall i :: 0 <= i < |s.work| ==> Reach(g, s.work[i].node, Next(s))
    ensures forall i :: 0 <= i < |s.work| ==> Yielded(s).work[i].node == s.work[i].node
    ensures Top(s) in s.on && Next(s) in Succ(g, Top(s))
  {
    assert s.work[|s.work| - 1].node in s.on;
    ReachEdge(g, Top(s), Next(s));
    forall i | 0 <= i < |s.work|
      ensures Reach(g, s.work[i].node, Next(s))
    {
      assert Reach(g, s.work[i].node, s.work[|s.work| - 1].node);
      ReachTrans(g, s.work[i].node, Top(s), Next(s));
    }
  }

  /** With nothing suspended, every visited node has its component. */
  lemma NothingStacked(g: Graph, s: State)
    requires Pending(s) && Anchored(g, s) && s.work == []
    ensures s.comp.Keys == s.index.Keys
  {
    forall u | u in s.index
      ensures u !in s.on
    {
      assert HasAnchor(g, s, u) ==> exists i: nat :: Anchor(g, s, u, i);
    }
  }

  lemma AllDone(g: Graph, s: State)
    requires Inv(g, s) && s.work == [] && g.Keys <= s.index.Keys
    ensures s.comp.Keys == g.Keys
    ensures forall u :: u in g ==> IsRepresentative(g, u, s.comp[u])
  {
    NothingStacked(g, s);
  }

  /**
   `sccs`: each node is mapped to the least node of its strongly connected component, so two
   nodes share a representative exactly when each reaches the other.
   */
  method Sccs(adj: Graph) returns (comp: map<Node, Node>)
    requires Closed(adj)
    ensures comp.Keys == adj.Keys
    ensures forall u, v :: u in adj && v in adj ==> (comp[u] == comp[v] <==> Mutual(adj, u, v))
    ensures forall u :: u in adj ==> IsRepresentative(adj, u, comp[u])
  {
    var search := VisitAll(adj);
    AllDone(adj, search.Snapshot([]));
    comp := search.comp;
    forall u, v | u in adj && v in adj
      ensures comp[u] == comp[v] <==> Mutual(adj, u, v)
    {
      RepresentativesAgree(adj, u, v, comp[u], comp[v]);
    }
  }

  method VisitAll(adj: Graph) returns (search: Search)
    requires Closed(adj)
    ensures fresh(search) && search.adj == adj && Inv(adj, search.Snapshot([])) && adj.Keys <= search.index.Keys
  {
    search := new Search(adj);
    var todo := adj.Keys;
    while todo != {}
      invariant fresh(search) && search.adj == adj
      invariant Inv(adj, search.Snapshot([])) && adj.Keys <= search.index.Keys + todo
      invariant todo <= adj.Keys
    {
      var v := Min(todo);
      if v !in search.index {
        search.Visit(v);
      }
      todo := todo - {v};
    }
  }

  /** Two nodes have the same representative exactly when they lie in one component. */
  lemma RepresentativesAgree(g: Graph, u: Node, v: Node, r: Node, q: Node)
    requires IsRepresentative(g, u, r) && IsRepresentative(g, v, q)
    ensures r == q <==> Mutual(g, u, v)
  {
    if Mutual(g, u, v) {
      SameRepresentative(g, u, v, r);
    }
    if r == q {
      ReachTrans(g, u, r, v);
      ReachTrans(g, v, r, u);
    }
  }
}
